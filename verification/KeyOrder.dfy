/** The order of keys while the hoister runs: names that stay keep their places. */
module KeyOrder {
  import opened Options
  import opened PackageTree
  import opened Hoisting
  import opened NormalForm

  /** `k` is listed at a position before one of `l`. */
  ghost predicate Before(names: seq<string>, k: string, l: string) {
    exists i, j :: 0 <= i < j < |names| && names[i] == k && names[j] == l
  }

  /** Names that stay keep their relative order, and new ones come after them. */
  ghost predicate InOrder(before: seq<string>, after: seq<string>) {
    && (forall k, l :: Before(before, k, l) && k in after && l in after ==> Before(after, k, l))
    && (forall k, l :: k in before && k in after && l in after && l !in before ==> Before(after, k, l))
  }

  // ---------------------------------------------------------------- deleting one name

  /** What is left after a deletion are the names before the one deleted and then those behind it. */
  lemma {:induction false} CutOut(a: seq<string>, d: string, b: seq<string>)
    requires d !in a
    ensures Without(a + [d] + b, d) == a + b
  {
    if a == [] {
      assert ([d] + b)[1..] == b && [] + [d] + b == [d] + b;
    } else {
      assert (a + [d] + b)[1..] == a[1..] + [d] + b;
      CutOut(a[1..], d, b);
      assert [a[0]] + (a[1..] + b) == a + b;
    }
  }

  lemma {:induction false} NothingToCut(names: seq<string>, d: string)
    requires d !in names
    ensures Without(names, d) == names
  {
    if names != [] { NothingToCut(names[1..], d); }
  }

  lemma {:induction false} AllDifferent(names: seq<string>, i: nat, j: nat)
    requires NoDuplicates(names) && i < j < |names|
    ensures names[i] != names[j]
  {
    if i > 0 {
      AllDifferent(names[1..], i - 1, j - 1);
    } else {
      assert names[j] == names[1..][j - 1];
    }
  }

  lemma StillBefore(a: seq<string>, d: string, b: seq<string>, k: string, l: string)
    requires Before(a + [d] + b, k, l) && k != d && l != d
    ensures Before(a + b, k, l)
  {
    var names := a + [d] + b;
    var i, j :| 0 <= i < j < |names| && names[i] == k && names[j] == l;
    var i', j' := if i < |a| then i else i - 1, if j < |a| then j else j - 1;
    assert (a + b)[i'] == k && (a + b)[j'] == l && i' < j';
  }

  lemma WithoutInOrder(names: seq<string>, d: string)
    requires NoDuplicates(names)
    ensures InOrder(names, Without(names, d)) && d !in Without(names, d)
  {
    if d in names {
      var i :| 0 <= i < |names| && names[i] == d;
      var a, b := names[..i], names[i + 1..];
      assert names == a + [d] + b;
      forall j | 0 <= j < |names| && j != i ensures names[j] != d {
        if i < j { AllDifferent(names, i, j); } else { AllDifferent(names, j, i); }
      }
      CutOut(a, d, b);
      var r := a + b;
      forall k, l | Before(names, k, l) && k in r && l in r ensures Before(r, k, l) { StillBefore(a, d, b, k, l); }
    } else {
      NothingToCut(names, d);
    }
  }

  lemma PrefixInOrder(before: seq<string>, after: seq<string>)
    requires before <= after && NoDuplicates(after)
    ensures InOrder(before, after)
  {
    forall k, l | Before(before, k, l) ensures Before(after, k, l) {
      var i, j :| 0 <= i < j < |before| && before[i] == k && before[j] == l;
      assert after[i] == k && after[j] == l;
    }
    forall k, l | k in before && l in after && l !in before ensures Before(after, k, l) {
      var i, j :| 0 <= i < |before| && before[i] == k && 0 <= j < |after| && after[j] == l;
      assert after[i] == k && after[j] == l && i < j;
    }
  }

  // ---------------------------------------------------------------- the hoister

  /** In a call, the names in the container keep their places and what is pushed up goes last. */
  lemma {:induction false} MoveChildrenUpInOrder<M>(c: Container<M>, n: string)
    requires WellFormed(c) && n in c.entries
    ensures c.order <= MoveChildrenUp(c, n).container.order
    decreases c.entries[n], 1
  {
    match c.entries[n].dependencies
    case None =>
    case Some(snapshot) =>
      MoveChildrenUpSteps(c, n, snapshot);
      assert WellFormedPackage(c.entries[n]) && WellFormed(snapshot);
      PushEachInOrder(c, n, snapshot.order, snapshot);
  }

  lemma {:induction false} PushEachInOrder<M>(c: Container<M>, n: string, names: seq<string>, snapshot: Container<M>)
    requires Pending(c, n, names, snapshot)
    ensures c.order <= PushEach(c, n, names, snapshot).container.order
    decreases snapshot, 0, |names|
  {
    if names == [] {
      PushEachDone(c, n, snapshot);
    } else {
      PushEachFirst(c, n, names, snapshot);
      PushOneInOrder(c, n, names[0], snapshot);
      PushEachInOrder(PushOne(c, n, names[0], snapshot).container, n, names[1..], snapshot);
    }
  }

  /** In one turn of the loop, the names in the container keep their places, and the children of the
      package keep their order: only the one at hand goes, and what comes from below goes last. */
  lemma {:induction false} PushOneInOrder<M>(c: Container<M>, n: string, d: string, snapshot: Container<M>)
    requires Pending(c, n, [d], snapshot)
    ensures c.order <= PushOne(c, n, d, snapshot).container.order
    ensures var r := PushOne(c, n, d, snapshot).container;
            var before, after := c.entries[n].dependencies.value.order, r.entries[n].dependencies.value.order;
            InOrder(before, after) && forall k :: k in before && k != d ==> k in after
    decreases snapshot, 0, 0
  {
    PendingChild(c, n, d, snapshot);
    var siblings := c.entries[n].dependencies.value;
    WithoutInOrder(siblings.order, d);
    if d !in c.entries {
      MoveChildrenUpInOrder(Moved(c, n, d), d);
    } else if c.entries[d].version != siblings.entries[d].version {
      MoveChildrenUpInOrder(siblings, d);
      PrefixInOrder(siblings.order, MoveChildrenUp(siblings, d).container.order);
    }
  }

  lemma {:induction false} SimplifyEachInOrder<M>(c: Container<M>, names: seq<string>)
    requires WellFormed(c) && forall k :: k in names ==> k in c.entries
    ensures c.order <= SimplifyEach(c, names).container.order
    decreases |names|
  {
    if names != [] {
      MoveChildrenUpInOrder(c, names[0]);
      SimplifyEachInOrder(MoveChildrenUp(c, names[0]).container, names[1..]);
    }
  }

  /** The names that the root starts with keep their places in the run. */
  lemma {:induction false} HoistInOrder<M>(c: Container<M>)
    requires WellFormed(c)
    ensures c.order <= Hoist(c).order
    decreases LoadAll(c)
  {
    SimplifyEachInOrder(c, c.order);
    SimplifyEachLoad(c, c.order);
    if Simplify(c).changed { HoistInOrder(Simplify(c).container); }
  }

  // ---------------------------------------------------------------- first come, first served

  /** A call takes the first child up if its name is free. */
  lemma FirstChildGoesUp<M>(c: Container<M>, n: string, snapshot: Container<M>)
    requires WellFormed(c) && n in c.entries && c.entries[n].dependencies == Some(snapshot)
    requires snapshot.order != [] && snapshot.order[0] !in c.entries
    ensures var x, r := snapshot.order[0], MoveChildrenUp(c, n).container;
            x in snapshot.entries && x in r.entries && SameButDependencies(r.entries[x], snapshot.entries[x])
  {
    var x := snapshot.order[0];
    MoveChildrenUpSteps(c, n, snapshot);
    PushEachFirst(c, n, snapshot.order, snapshot);
    PendingChild(c, n, x, snapshot);
    var first := PushOne(c, n, x, snapshot).container;
    assert first == MoveChildrenUp(Moved(c, n, x), x).container;
    assert Moved(c, n, x).entries[x] == snapshot.entries[x];
    assert x in first.entries && SameButDependencies(first.entries[x], snapshot.entries[x]);
    hide PushEach, PushOne, MoveChildrenUp;
  }

  /** Of packages of one name without a place at the root, the one that the first root package
      lists first gets it, in whatever version. */
  lemma FirstChildWins<M>(c: Container<M>, first: string, x: string, snapshot: Container<M>)
    requires WellFormed(c) && c.order != [] && c.order[0] == first && c.entries[first].dependencies == Some(snapshot)
    requires snapshot.order != [] && snapshot.order[0] == x && x !in c.entries
    ensures x in snapshot.entries && x in Hoist(c).entries
    ensures SameButDependencies(Hoist(c).entries[x], snapshot.entries[x])
  {
    assert first in c.order && first in c.entries;
    FirstChildGoesUp(c, first, snapshot);
    var pushed := MoveChildrenUp(c, first).container;
    SimplifyEachKeepsRoot(pushed, c.order[1..]);
    assert Simplify(c).container == SimplifyEach(pushed, c.order[1..]).container;
    SimplifyEachLoad(c, c.order);
    if Simplify(c).changed { HoistKeepsRoot(Simplify(c).container); }
  }
}
