/** Dependency cycle detection by depth-first search over a graph of package names. */
module Cycles {

  /** Which packages each package depends on; a package without an entry depends on nothing. */
  type Graph = map<string, set<string>>

  function Deps(g: Graph, p: string): set<string> {
    if p in g then g[p] else {}
  }

  /** Every name that occurs in the graph. */
  function Names(g: Graph): set<string> {
    g.Keys + set p, d | p in g && d in g[p] :: d
  }

  /** Each package of the walk depends on the next one. */
  ghost predicate Walk(g: Graph, w: seq<string>) {
    forall i :: 0 <= i < |w| - 1 ==> w[i + 1] in Deps(g, w[i])
  }

  ghost predicate IsCycle(g: Graph, w: seq<string>) {
    |w| >= 2 && w[0] == w[|w| - 1] && Walk(g, w)
  }

  ghost predicate HasCycle(g: Graph) {
    exists w :: IsCycle(g, w)
  }

  ghost predicate Distinct(xs: seq<string>) {
    forall i, j :: 0 <= i < j < |xs| ==> xs[i] != xs[j]
  }

  /** Every package in `order` comes after all it depends on. */
  ghost predicate DepsFirst(g: Graph, order: seq<string>) {
    forall i, d :: 0 <= i < |order| && d in Deps(g, order[i]) ==> d in order[..i]
  }

  /** The last step of one of the cycles leads from `p` to `d`. */
  ghost predicate Closes(cycles: seq<seq<string>>, p: string, d: string) {
    exists c :: c in cycles && |c| >= 2 && c[|c| - 2] == p && c[|c| - 1] == d
  }

  /** The graph without the last steps of the cycles. */
  ghost function Without(g: Graph, cycles: seq<seq<string>>): Graph {
    map p | p in g :: set d | d in g[p] && !Closes(cycles, p, d)
  }

  /** One of the steps of `w` is the last step of one of the cycles. */
  ghost predicate Broken(cycles: seq<seq<string>>, w: seq<string>) {
    exists k :: 0 <= k < |w| - 1 && Closes(cycles, w[k], w[k + 1])
  }

  lemma OrderedWithMore(g: Graph, order: seq<string>, cycles: seq<seq<string>>, c: seq<string>)
    requires DepsFirst(Without(g, cycles), order)
    ensures DepsFirst(Without(g, cycles + [c]), order)
  {
    forall i, d | 0 <= i < |order| && d in Deps(Without(g, cycles + [c]), order[i]) ensures d in order[..i] {
      assert forall x :: x in cycles ==> x in cycles + [c];
      assert d in Deps(Without(g, cycles), order[i]);
    }
  }

  lemma ClosesMore(cycles: seq<seq<string>>, more: seq<seq<string>>, p: string, d: string)
    requires cycles <= more && Closes(cycles, p, d)
    ensures Closes(more, p, d)
  {
    assert forall c :: c in cycles ==> c in more;
  }

  /** If what is left without the last steps of the cycles can be listed dependencies first, then
      each cycle of the graph takes one of those steps. */
  lemma OrderedMeansBroken(g: Graph, order: seq<string>, cycles: seq<seq<string>>, w: seq<string>)
    requires Distinct(order) && DepsFirst(Without(g, cycles), order) && (forall p :: p in Names(g) ==> p in order)
    requires IsCycle(g, w)
    ensures Broken(cycles, w)
  {
    var left := Without(g, cycles);
    assert forall p :: p in Names(left) ==> p in Names(g);
    OrderedMeansAcyclic(left, order);
    if !Broken(cycles, w) {
      forall i | 0 <= i < |w| - 1 ensures w[i + 1] in Deps(left, w[i]) {
        assert w[i + 1] in Deps(g, w[i]) && !Closes(cycles, w[i], w[i + 1]);
      }
      assert IsCycle(left, w);
    }
  }

  lemma NoneClosed(g: Graph)
    ensures Without(g, []) == g
  {
    forall p | p in g ensures Without(g, [])[p] == g[p] {}
  }

  lemma CycleFound(g: Graph, path: seq<string>, i: nat, p: string, cycles: seq<seq<string>>)
    requires Walk(g, path) && i < |path| && path[i] == p && p in Deps(g, path[|path| - 1])
    ensures var c := path[i..] + [p]; IsCycle(g, c) && Closes(cycles + [c], path[|path| - 1], p)
  {
    var c := path[i..] + [p];
    assert c in cycles + [c] && c[|c| - 2] == path[|path| - 1];
    assert forall k :: 0 <= k < |c| - 1 ==> c[k] == path[i + k];
  }

  /** A package whose remaining dependencies are all in the order can be the next one. */
  lemma LastLeft(g: Graph, cycles: seq<seq<string>>, order: seq<string>, p: string)
    requires DepsFirst(Without(g, cycles), order)
    requires forall d :: d in Deps(g, p) ==> d in order || Closes(cycles, p, d)
    ensures DepsFirst(Without(g, cycles), order + [p])
  {
    LastOne(Without(g, cycles), order, p);
  }

  lemma LastOne(g: Graph, order: seq<string>, p: string)
    requires DepsFirst(g, order) && forall d :: d in Deps(g, p) ==> d in order
    ensures DepsFirst(g, order + [p])
  {
    forall i, d | 0 <= i < |order| + 1 && d in Deps(g, (order + [p])[i]) ensures d in (order + [p])[..i] {
      assert (order + [p])[..i] == order[..i];
    }
  }

  /** Along a walk one only ever gets to earlier packages of the order. */
  lemma WalkGoesBack(g: Graph, order: seq<string>, w: seq<string>, a: nat, k: nat)
    requires DepsFirst(g, order) && Walk(g, w) && 1 <= k < |w|
    requires a < |order| && order[a] == w[0]
    ensures w[k] in order[..a]
    decreases k
  {
    var b := a;
    if k > 1 {
      WalkGoesBack(g, order, w, a, k - 1);
      b :| 0 <= b < a && order[b] == w[k - 1];
    }
    assert w[k] in order[..b];
  }

  /** A graph whose packages can be listed once each, dependencies first, has no cycle. */
  lemma OrderedMeansAcyclic(g: Graph, order: seq<string>)
    requires Distinct(order) && DepsFirst(g, order) && forall p :: p in Names(g) ==> p in order
    ensures !HasCycle(g)
  {
    forall w | IsCycle(g, w) ensures false {
      assert w[1] in Deps(g, w[0]) && w[0] in Names(g);
      var a :| 0 <= a < |order| && order[a] == w[0];
      WalkGoesBack(g, order, w, a, |w| - 1);
      assert false;
    }
  }

  method Find(xs: seq<string>, x: string) returns (i: int)
    ensures -1 <= i < |xs|
    ensures i == -1 <==> x !in xs
    ensures i >= 0 ==> xs[i] == x && x !in xs[..i]
  {
    i := 0;
    while i < |xs|
      invariant 0 <= i <= |xs| && x !in xs[..i]
    {
      if xs[i] == x { return; }
      i := i + 1;
    }
    i := -1;
  }

  class CycleCheck {
    const graph: Graph
    var checked: set<string>
    /** The cycles printed so far. */
    var printed: seq<seq<string>>
    /** The packages whose check is over, in the order in which it ended. */
    ghost var finished: seq<string>

    constructor (graph: Graph)
      ensures this.graph == graph && Valid([]) && finished == [] && printed == []
    {
      this.graph := graph;
      checked, printed, finished := {}, [], [];
    }

    /** The packages checked so far are those under way, on `path`, and those finished. */
    ghost predicate Valid(path: seq<string>)
      reads this
    {
      && checked <= Names(graph)
      && (forall p :: p in checked <==> p in path || p in finished)
      && (forall p :: p in path ==> p !in finished)
      && Distinct(path) && Distinct(finished) && Walk(graph, path)
      && (forall c :: c in printed ==> IsCycle(graph, c))
      && DepsFirst(Without(graph, printed), finished)
      && (forall p, d :: p in finished && d in Deps(graph, p) ==> d in checked)
    }

    /** `package` is where the walk along `path` goes next. */
    ghost predicate Next(path: seq<string>, package: string)
    {
      package in Names(graph) && (path != [] ==> package in Deps(graph, path[|path| - 1]))
    }

    /** `package` is finished, or the step to it from the end of `path` closes a printed cycle. */
    ghost predicate Settled(path: seq<string>, package: string)
      reads this
    {
      package in finished || (path != [] && Closes(printed, path[|path| - 1], package))
    }

    method CheckForCycles(package: string, path: seq<string>)
      requires Valid(path) && Next(path, package)
      modifies this
      ensures Valid(path)
      ensures old(finished) <= finished && old(printed) <= printed && old(checked) <= checked
      ensures package in checked && Settled(path, package)
      decreases Names(graph) - checked, 1
    {
      hide Names, IsCycle, DepsFirst, Without, Closes;
      var i := Find(path, package);
      if i != -1 {
        var cycle := path[i..] + [package];
        CycleFound(graph, path, i, package, printed);
        OrderedWithMore(graph, finished, printed, cycle);
        printed := printed + [cycle];
        return;
      }
      if package in checked { return; }
      checked := checked + {package};
      CheckDeps(package, path + [package]);
      LastLeft(graph, printed, finished, package);
      finished := finished + [package];
    }

    /** The loop over the dependencies of `package`, in whatever order the set yields them. */
    method CheckDeps(package: string, path: seq<string>)
      requires Valid(path) && path != [] && path[|path| - 1] == package
      modifies this
      ensures Valid(path)
      ensures old(finished) <= finished && old(printed) <= printed && old(checked) <= checked
      ensures forall d :: d in Deps(graph, package) ==> d in checked && Settled(path, d)
      decreases Names(graph) - checked, 2
    {
      var deps := Deps(graph, package);
      while deps != {}
        invariant Valid(path)
        invariant old(finished) <= finished && old(printed) <= printed && old(checked) <= checked
        invariant deps <= Deps(graph, package)
        invariant forall d :: d in Deps(graph, package) && d !in deps ==> d in checked && Settled(path, d)
      {
        var dep :| dep in deps;
        ghost var before := printed;
        CheckForCycles(dep, path);
        forall d | Closes(before, package, d)
          ensures Closes(printed, package, d)
        {
          ClosesMore(before, printed, package, d);
        }
        deps := deps - {dep};
      }
    }

    /** Check every package that has an entry. */
    method CheckAll()
      requires Valid([]) && finished == [] && printed == []
      modifies this
      ensures printed == [] <==> !HasCycle(graph)
      ensures forall c :: c in printed ==> IsCycle(graph, c)
      ensures Distinct(finished) && checked == Names(graph) && (forall p :: p in finished <==> p in Names(graph))
      ensures DepsFirst(Without(graph, printed), finished) && (printed == [] ==> DepsFirst(graph, finished))
      ensures forall w :: IsCycle(graph, w) ==> Broken(printed, w)
    {
      NoneClosed(graph);
      var packages := graph.Keys;
      while packages != {}
        invariant Valid([]) && packages <= graph.Keys
        invariant forall p :: p in graph && p !in packages ==> p in checked
      {
        var package :| package in packages;
        CheckForCycles(package, []);
        packages := packages - {package};
      }
      assert checked == Names(graph);
      forall w | IsCycle(graph, w) ensures Broken(printed, w) { OrderedMeansBroken(graph, finished, printed, w); }
      if printed == [] {
        OrderedMeansAcyclic(graph, finished);
      } else {
        assert printed[0] in printed;
      }
    }
  }

  // ---------------------------------------------------------------- the graph

  /** A package.json file: its name and the names in its two dependency sections, if present. */
  datatype PackageJson = PackageJson(name: string, devDependencies: Section, dependencies: Section)
  datatype Section = Absent | Present(names: set<string>)

  /** What the files add to the graph: an entry for each package with a section. */
  ghost predicate GraphOf(files: seq<PackageJson>, g: Graph) {
    && (forall p :: p in g <==> exists i :: 0 <= i < |files| && Declares(files[i], p))
    && (forall p, d :: d in Deps(g, p) <==> exists i :: 0 <= i < |files| && DependsOn(files[i], p, d))
  }

  ghost predicate Declares(f: PackageJson, p: string) {
    f.name == p && (f.devDependencies.Present? || f.dependencies.Present?)
  }

  ghost predicate DependsOn(f: PackageJson, p: string, d: string) {
    f.name == p && (In(f.devDependencies, d) || In(f.dependencies, d))
  }

  ghost predicate In(s: Section, d: string) {
    s.Present? && d in s.names
  }

  method FullDependencyGraph(files: seq<PackageJson>) returns (g: Graph)
    ensures GraphOf(files, g)
  {
    g := map[];
    var i := 0;
    while i < |files|
      invariant 0 <= i <= |files|
      invariant forall p :: p in g <==> exists j :: 0 <= j < i && Declares(files[j], p)
      invariant forall p, d :: d in Deps(g, p) <==> exists j :: 0 <= j < i && DependsOn(files[j], p, d)
    {
      g := AddSection(g, files[i].name, files[i].devDependencies);
      g := AddSection(g, files[i].name, files[i].dependencies);
      i := i + 1;
    }
  }

  /** The graph has an entry for a package exactly if a file of that name has a section. The entry
      has what the sections of such files list, and nothing else. */
  lemma GraphMeans(files: seq<PackageJson>, g: Graph)
    requires GraphOf(files, g)
    ensures forall p :: p in g <==>
              || (exists k :: 0 <= k < |files| && files[k].name == p && files[k].dependencies.Present?)
              || (exists k :: 0 <= k < |files| && files[k].name == p && files[k].devDependencies.Present?)
    ensures forall k, d :: 0 <= k < |files| && files[k].dependencies.Present? && d in files[k].dependencies.names ==>
              files[k].name in g && d in g[files[k].name]
    ensures forall k, d ::
              0 <= k < |files| && files[k].devDependencies.Present? && d in files[k].devDependencies.names ==>
              files[k].name in g && d in g[files[k].name]
    ensures forall p, d :: p in g && d in g[p] ==>
              || (exists k :: 0 <= k < |files| && files[k].name == p && files[k].dependencies.Present?
                             && d in files[k].dependencies.names)
              || (exists k :: 0 <= k < |files| && files[k].name == p && files[k].devDependencies.Present?
                             && d in files[k].devDependencies.names)
  {
    forall k, d | 0 <= k < |files| && (In(files[k].dependencies, d) || In(files[k].devDependencies, d))
      ensures files[k].name in g && d in g[files[k].name]
    {
      assert DependsOn(files[k], files[k].name, d);
      assert d in Deps(g, files[k].name);
    }
    forall p, d | p in g && d in g[p] ensures Lists(files, p, d) { assert d in Deps(g, p); }
    forall p, d ensures Lists(files, p, d) <==>
      || (exists k :: 0 <= k < |files| && files[k].name == p && files[k].dependencies.Present?
                     && d in files[k].dependencies.names)
      || (exists k :: 0 <= k < |files| && files[k].name == p && files[k].devDependencies.Present?
                     && d in files[k].devDependencies.names)
    {
      ListsMeans(files, p, d);
    }
  }

  /** A section that is there makes an entry for the package, and adds what it lists to it. */
  method AddSection(g: Graph, name: string, section: Section) returns (r: Graph)
    ensures forall p :: p in r <==> p in g || (p == name && section.Present?)
    ensures forall p ::
              Deps(r, p) == if p == name && section.Present? then Deps(g, p) + section.names else Deps(g, p)
  {
    r := g;
    if section.Present? {
      r := r[name := Deps(g, name) + section.names];
    }
  }

  /** Dependencies without an entry of their own are dropped. */
  function Local(g: Graph): Graph {
    map p | p in g :: g[p] * g.Keys
  }

  method LocalDependencyGraph(full: Graph) returns (g: Graph)
    ensures g == Local(full)
    ensures g.Keys == full.Keys && forall p :: p in g ==> g[p] == full[p] * full.Keys
  {
    g := full;
    var packages := g.Keys;
    while packages != {}
      invariant g.Keys == full.Keys && packages <= g.Keys
      invariant forall p :: p in g ==> g[p] == if p in packages then full[p] else full[p] * full.Keys
    {
      var p :| p in packages;
      g := g[p := g[p] * g.Keys];
      packages := packages - {p};
    }
  }

  /** The cycles of a graph are the same when dependencies without an entry are left out, so
      both scripts report a cycle for the same sets of files. */
  lemma LocalKeepsCycles(g: Graph, w: seq<string>)
    ensures IsCycle(g, w) <==> IsCycle(Local(g), w)
  {
    if IsCycle(g, w) {
      forall i | 0 <= i < |w| - 1 ensures w[i + 1] in Deps(Local(g), w[i]) {
        if i + 1 < |w| - 1 {
          assert w[i + 2] in Deps(g, w[i + 1]);
        } else {
          assert w[1] in Deps(g, w[0]);
        }
        assert w[i + 1] in g;
      }
    }
  }

  lemma LocalHasCycle(g: Graph)
    ensures HasCycle(g) <==> HasCycle(Local(g))
  {
    if HasCycle(g) {
      var w :| IsCycle(g, w);
      LocalKeepsCycles(g, w);
    }
    if HasCycle(Local(g)) {
      var w :| IsCycle(Local(g), w);
      LocalKeepsCycles(g, w);
    }
  }

  /** Some file of package `p` lists `d`. */
  ghost predicate Lists(files: seq<PackageJson>, p: string, d: string) {
    exists k :: 0 <= k < |files| && DependsOn(files[k], p, d)
  }

  /** In terms of the files: a section of some file of that name is there and has `d` in it. */
  lemma ListsMeans(files: seq<PackageJson>, p: string, d: string)
    ensures Lists(files, p, d) <==>
              || (exists k :: 0 <= k < |files| && files[k].name == p && files[k].dependencies.Present?
                             && d in files[k].dependencies.names)
              || (exists k :: 0 <= k < |files| && files[k].name == p && files[k].devDependencies.Present?
                             && d in files[k].devDependencies.names)
  {
    if k :| 0 <= k < |files| && files[k].name == p && files[k].dependencies.Present?
            && d in files[k].dependencies.names
    {
      assert DependsOn(files[k], p, d);
    }
    if k :| 0 <= k < |files| && files[k].name == p && files[k].devDependencies.Present?
            && d in files[k].devDependencies.names
    {
      assert DependsOn(files[k], p, d);
    }
  }

  /** Packages of which each lists the next one, ending where they start. */
  ghost predicate IsListedCycle(files: seq<PackageJson>, w: seq<string>) {
    |w| >= 2 && w[0] == w[|w| - 1] && forall i, j :: 0 <= i < j < |w| && j == i + 1 ==> Lists(files, w[i], w[j])
  }

  lemma ListedCycle(files: seq<PackageJson>, g: Graph, w: seq<string>)
    requires GraphOf(files, g)
    ensures IsListedCycle(files, w) <==> IsCycle(g, w)
  {
    assert forall p, d :: d in Deps(g, p) <==> Lists(files, p, d);
    hide Lists, Deps, GraphOf;
    if IsListedCycle(files, w) {
      forall i | 0 <= i < |w| - 1 ensures w[i + 1] in Deps(g, w[i]) { var j := i + 1; assert Lists(files, w[i], w[j]); }
    }
    if IsCycle(g, w) {
      forall i, j | 0 <= i < j < |w| && j == i + 1 ensures Lists(files, w[i], w[j]) {
        assert w[i + 1] in Deps(g, w[i]);
      }
    }
  }

  lemma ListedCycles(files: seq<PackageJson>, g: Graph)
    requires GraphOf(files, g)
    ensures forall w :: IsListedCycle(files, w) <==> IsCycle(g, w)
    ensures HasCycle(g) <==> exists w :: IsListedCycle(files, w)
  {
    hide IsListedCycle, IsCycle;
    forall w ensures IsListedCycle(files, w) <==> IsCycle(g, w) { ListedCycle(files, g, w); }
  }

  /** Two files that list each other's packages make a cycle, whichever sections they use. */
  lemma MutualDependency(files: seq<PackageJson>, i: nat, k: nat)
    requires i < |files| && k < |files|
    requires || (files[i].dependencies.Present? && files[k].name in files[i].dependencies.names)
             || (files[i].devDependencies.Present? && files[k].name in files[i].devDependencies.names)
    requires || (files[k].dependencies.Present? && files[i].name in files[k].dependencies.names)
             || (files[k].devDependencies.Present? && files[i].name in files[k].devDependencies.names)
    ensures exists w :: IsListedCycle(files, w)
  {
    var a, b := files[i].name, files[k].name;
    assert DependsOn(files[i], a, b) && DependsOn(files[k], b, a);
    assert Lists(files, a, b) && Lists(files, b, a);
    assert IsListedCycle(files, [a, b, a]);
  }

  /** Files whose packages can be ranked above all that they list make none. */
  lemma RankedMeansAcyclic(files: seq<PackageJson>, rank: string -> int, w: seq<string>)
    requires forall k, d ::
               0 <= k < |files| && files[k].dependencies.Present? && d in files[k].dependencies.names ==>
               rank(d) < rank(files[k].name)
    requires forall k, d ::
               0 <= k < |files| && files[k].devDependencies.Present? && d in files[k].devDependencies.names ==>
               rank(d) < rank(files[k].name)
    ensures !IsListedCycle(files, w)
  {
    if IsListedCycle(files, w) {
      RankFalls(files, rank, w, |w| - 1);
    }
  }

  lemma {:induction false} RankFalls(files: seq<PackageJson>, rank: string -> int, w: seq<string>, n: nat)
    requires forall k, d ::
               0 <= k < |files| && files[k].dependencies.Present? && d in files[k].dependencies.names ==>
               rank(d) < rank(files[k].name)
    requires forall k, d ::
               0 <= k < |files| && files[k].devDependencies.Present? && d in files[k].devDependencies.names ==>
               rank(d) < rank(files[k].name)
    requires IsListedCycle(files, w) && 0 < n < |w|
    ensures rank(w[n]) < rank(w[0])
  {
    if n > 1 { RankFalls(files, rank, w, n - 1); }
    assert Lists(files, w[n - 1], w[n]);
    var k :| 0 <= k < |files| && DependsOn(files[k], w[n - 1], w[n]);
  }

  /** Such a walk takes a step at which some printed cycle ends. */
  lemma BrokenMeans(cycles: seq<seq<string>>, w: seq<string>)
    ensures Broken(cycles, w) <==> exists c, i, j :: c in cycles && 0 <= i < j < |w| && j == i + 1
                                     && |c| >= 2 && c[|c| - 2] == w[i] && c[|c| - 1] == w[j]
  {
    if k :| 0 <= k < |w| - 1 && Closes(cycles, w[k], w[k + 1]) {
      var c :| c in cycles && |c| >= 2 && c[|c| - 2] == w[k] && c[|c| - 1] == w[k + 1];
      var j := k + 1;
      assert c[|c| - 2] == w[k] && c[|c| - 1] == w[j];
    }
    if c, i, j :| c in cycles && 0 <= i < j < |w| && j == i + 1 && |c| >= 2
                  && c[|c| - 2] == w[i] && c[|c| - 1] == w[j]
    {
      assert Closes(cycles, w[i], w[i + 1]);
    }
  }

  lemma FullReports(files: seq<PackageJson>, g: Graph, printed: seq<seq<string>>)
    requires GraphOf(files, g) && (printed == [] <==> !HasCycle(g))
    requires forall c :: c in printed ==> IsCycle(g, c)
    requires forall w :: IsCycle(g, w) ==> Broken(printed, w)
    ensures printed == [] <==> forall w :: !IsListedCycle(files, w)
    ensures forall c :: c in printed ==> IsListedCycle(files, c)
    ensures forall w :: IsListedCycle(files, w) ==> Broken(printed, w)
  {
    hide GraphOf, IsListedCycle, IsCycle, Broken;
    ListedCycles(files, g);
  }

  /** The cycles that find-cycles.py prints: leaving out the last step of each leaves no cycle. */
  method FindCycles(files: seq<PackageJson>) returns (printed: seq<seq<string>>)
    ensures printed == [] <==> forall w :: !IsListedCycle(files, w)
    ensures forall c :: c in printed ==> IsListedCycle(files, c)
    ensures forall w :: IsListedCycle(files, w) ==> Broken(printed, w)
  {
    hide *;
    var graph := FullDependencyGraph(files);
    var check := new CycleCheck(graph);
    check.CheckAll();
    FullReports(files, graph, check.printed);
    return check.printed;
  }

  lemma LocalPackages(g: Graph, w: seq<string>)
    requires IsCycle(Local(g), w)
    ensures IsCycle(g, w) && forall p :: p in w ==> p in g
  {
    LocalKeepsCycles(g, w);
    forall i | 0 <= i < |w| ensures w[i] in g {
      if i == |w| - 1 { assert w[1] in Deps(g, w[0]); } else { assert w[i + 1] in Deps(g, w[i]); }
    }
  }

  lemma LocalReports(files: seq<PackageJson>, full: Graph, printed: seq<seq<string>>)
    requires GraphOf(files, full)
    requires forall c :: c in printed ==> IsCycle(Local(full), c)
    requires forall w :: IsCycle(Local(full), w) ==> Broken(printed, w)
    requires printed == [] <==> !HasCycle(Local(full))
    ensures printed == [] <==> forall w :: !IsListedCycle(files, w)
    ensures forall c :: c in printed ==>
              IsListedCycle(files, c) && forall p :: p in c ==> exists k :: 0 <= k < |files| && Declares(files[k], p)
    ensures forall w :: IsListedCycle(files, w) ==> Broken(printed, w)
  {
    GraphDeclares(files, full);
    hide Declares, GraphOf, IsListedCycle, IsCycle, Broken, Local;
    ListedCycles(files, full);
    LocalHasCycle(full);
    forall c | c in printed
      ensures IsListedCycle(files, c) && forall p :: p in c ==> p in full
    {
      LocalPackages(full, c);
    }
    forall w | IsListedCycle(files, w) ensures Broken(printed, w) { LocalKeepsCycles(full, w); }
  }

  lemma GraphDeclares(files: seq<PackageJson>, g: Graph)
    requires GraphOf(files, g)
    ensures forall p :: p in g ==> exists k :: 0 <= k < |files| && Declares(files[k], p)
  {
    hide Declares, Deps;
  }

  /** The cycles that dependencies.py prints, over the packages of the repository alone. */
  method FindLocalCycles(files: seq<PackageJson>) returns (printed: seq<seq<string>>)
    ensures printed == [] <==> forall w :: !IsListedCycle(files, w)
    ensures forall c :: c in printed ==>
              IsListedCycle(files, c) && forall p :: p in c ==> exists k :: 0 <= k < |files| && Declares(files[k], p)
    ensures forall w :: IsListedCycle(files, w) ==> Broken(printed, w)
  {
    hide *;
    var full := FullDependencyGraph(files);
    var graph := LocalDependencyGraph(full);
    var check := new CycleCheck(graph);
    check.CheckAll();
    LocalReports(files, full, check.printed);
    return check.printed;
  }
}
