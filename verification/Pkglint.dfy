/** The rule that all used versions of a dependency are the same, over package.json files in memory. */
module Pkglint {
  import opened Options
  import opened JsonValues
  import opened JsonObjects
  import opened JsonPaths
  import opened Splitting
  import opened VersionVoting
  import opened VersionFixes

  function Scalar(v: Value): Json
    requires !v.Ref?
  {
    match v case Nothing => Undefined case TextValue(s) => Text(s) case OtherValue(text) => Other(text)
  }

  function ValueOf(j: Json): Value
    requires !j.Record?
  {
    match j case Undefined => Nothing case Text(s) => TextValue(s) case Other(text) => OtherValue(text)
  }

  lemma Scalars(store: Store, x: Value, j: Json)
    requires Denotes(store, x, j)
    ensures x.Ref? <==> j.Record?
    ensures !x.Ref? ==> Scalar(x) == j
  {
  }

  /** The document that `x` stands for, for comparing it with another. */
  method Read(x: Value, ghost j: Json, ghost repr: set<JsonObject>) returns (r: Json)
    requires Denotes(StoreOf(repr), x, j) && WellFormed(j)
    ensures r == j
    decreases j
  {
    hide *;
    Scalars(StoreOf(repr), x, j);
    if !x.Ref? { return Scalar(x); }
    SectionHeld(x, j, repr);
    ReadNothing(j);
    var keys, fields := x.o.keys, map[];
    var i := 0;
    while i < |keys|
      invariant 0 <= i <= |keys| && ReadUpTo(fields, j, i)
    {
      var k := keys[i];
      EntryHeld(x, j, repr, i);
      var child := Read(x.o.fields[k], j.fields[k], repr);
      ReadOneMore(fields, j, i);
      fields := fields[k := child];
      i := i + 1;
    }
    ReadAll(fields, j);
    r := Record(keys, fields);
  }

  /** The first `n` fields of a record have been read. */
  ghost predicate ReadUpTo(fields: map<string, Json>, j: Json, n: nat) {
    && j.Record? && n <= |j.keys| && fields.Keys == (set k | k in j.keys[..n])
    && forall k :: k in fields ==> k in j.fields && fields[k] == j.fields[k]
  }

  lemma ReadNothing(j: Json)
    requires j.Record?
    ensures ReadUpTo(map[], j, 0)
  {
  }

  lemma ReadOneMore(fields: map<string, Json>, j: Json, n: nat)
    requires ReadUpTo(fields, j, n) && n < |j.keys| && j.keys[n] in j.fields
    ensures ReadUpTo(fields[j.keys[n] := j.fields[j.keys[n]]], j, n + 1)
  {
    assert j.keys[..n + 1] == j.keys[..n] + [j.keys[n]];
  }

  lemma ReadAll(fields: map<string, Json>, j: Json)
    requires WellFormed(j) && j.Record? && ReadUpTo(fields, j, |j.keys|)
    ensures fields == j.fields
  {
    assert j.keys[..|j.keys|] == j.keys;
    forall k ensures k in fields <==> k in j.fields {
      assert k in j.keys <==> k in j.fields;
    }
  }

  class PackageJson {
    const json: JsonObject
    /** The fixes of the reports so far. */
    var reports: seq<Fix>
    ghost var tree: Json
    ghost var repr: set<JsonObject>

    constructor (json: JsonObject, ghost tree: Json, ghost repr: set<JsonObject>)
      requires Tree(StoreOf(repr), Ref(json), tree) && WellFormed(tree)
      ensures Valid() && this.json == json && this.tree == tree && this.repr == repr && reports == []
    {
      this.json, this.tree, this.repr, reports := json, tree, repr, [];
    }

    ghost predicate Valid()
      reads this, repr
    {
      Tree(StoreOf(repr), Ref(json), tree) && WellFormed(tree)
    }

    /** The value of a field of the document, if it is there. */
    method GetSection(section: string) returns (x: Value)
      requires Valid() && tree.Record?
      ensures Denotes(StoreOf(repr), x, Field(tree, section))
    {
      x := if section in json.fields then json.fields[section] else Nothing;
    }

    /** The names listed in a section; it may be missing, or there without having keys. */
    method Dependencies(section: string) returns (keys: seq<string>)
      requires Valid() && tree.Record?
      ensures var s := Field(tree, section); keys == if s.Record? then s.keys else []
    {
      var deps := GetSection(section);
      SectionHeld(deps, Field(tree, section), repr);
      keys := if deps.Ref? then deps.o.keys else [];
    }

    method Report(fix: Fix)
      modifies this`reports
      ensures reports == old(reports) + [fix]
    {
      reports := reports + [fix];
    }

    /** Report a path where a value with another text is found. */
    method ExpectJson(jsonPath: string, expected: Json)
      requires Valid() && "__proto__" !in Split(jsonPath, '.')
      modifies this`reports
      ensures Valid()
      ensures var path := Split(jsonPath, '.');
              reports == if Same(Get(tree, path), expected) then old(reports) else old(reports) + [Fix(path, expected)]
    {
      hide WellFormed, Tree;
      var parts := Split(jsonPath, '.');
      DocumentTree(this);
      var actual := DeepGet(Ref(json), parts, tree, repr);
      GetWellFormed(tree, parts);
      var found := Read(actual, Get(tree, parts), repr);
      if !Same(found, expected) {
        Report(Fix(parts, expected));
      }
    }

    /** Run every fix in turn; one that throws ends the run. */
    method ApplyFixes() returns (ok: bool)
      requires Valid() && forall f :: f in reports ==> !f.expected.Record? && "__proto__" !in f.path
      modifies this, repr
      ensures ok <==> Apply(old(tree), old(reports)).Some?
      ensures Valid() && fresh(repr - old(repr))
      ensures ok ==> reports == [] && tree == Apply(old(tree), old(reports)).value
    {
      ApplyNone(tree);
      hide Apply, Set, Settable, Tree, WellFormed;
      var i := 0;
      assert reports[..i] == [];
      while i < |reports|
        invariant 0 <= i <= |reports| && reports == old(reports)
        invariant Valid() && fresh(repr - old(repr)) && old(repr) <= repr
        invariant Apply(old(tree), reports[..i]) == Some(tree)
      {
        ApplyNext(old(tree), reports, i);
        ok := Write(reports[i]);
        if !ok { ApplyFails(old(tree), reports, i); return; }
        i := i + 1;
      }
      assert reports[..i] == reports;
      reports := [];
      ok := true;
    }

    /** Make a fix. One that throws may leave records behind. */
    method Write(f: Fix) returns (ok: bool)
      requires Valid() && !f.expected.Record? && "__proto__" !in f.path
      modifies this, repr
      ensures Valid() && reports == old(reports) && fresh(repr - old(repr)) && old(repr) <= repr
      ensures ok <==> Settable(old(tree), f.path)
      ensures tree == if ok then Set(old(tree), f.path, f.expected) else Leftover(old(tree), f.path)
    {
      hide *;
      DocumentReady(this, f.expected);
      ghost var made;
      ghost var owned, valued :=
        Objects(StoreOf(repr), Ref(json), tree), Objects(StoreOf(repr), ValueOf(f.expected), f.expected);
      ok, made := DeepSet(Ref(json), f.path, ValueOf(f.expected), tree, f.expected, repr);
      repr := repr + made;
      WrittenWell(tree, f);
      if ok {
        tree := Set(tree, f.path, f.expected);
        DocumentWithin(this, owned + valued + made);
      } else {
        tree := Leftover(tree, f.path);
        DocumentWithin(this, owned + made);
      }
    }
  }

  /** A document and a scalar, as `DeepSet` wants them. */
  lemma DocumentReady(p: PackageJson, v: Json)
    requires p.Valid() && !v.Record?
    ensures Denotes(StoreOf(p.repr), Ref(p.json), p.tree) && WellFormed(p.tree)
            && Tree(StoreOf(p.repr), Ref(p.json), p.tree)
    ensures Denotes(StoreOf(p.repr), ValueOf(v), v) && Tree(StoreOf(p.repr), ValueOf(v), v)
            && Objects(StoreOf(p.repr), ValueOf(v), v) == {}
    ensures Objects(StoreOf(p.repr), Ref(p.json), p.tree) <= p.repr
  {
    ObjectsStored(StoreOf(p.repr), Ref(p.json), p.tree);
  }

  lemma DocumentTree(p: PackageJson)
    requires p.Valid()
    ensures Tree(StoreOf(p.repr), Ref(p.json), p.tree) && WellFormed(p.tree)
  {
  }

  lemma WrittenWell(j: Json, f: Fix)
    requires WellFormed(j) && !f.expected.Record?
    ensures Settable(j, f.path) ==> WellFormed(Set(j, f.path, f.expected))
    ensures WellFormed(Leftover(j, f.path))
  {
    if Settable(j, f.path) { SetKeepsWellFormed(j, f.path, f.expected); }
    LeftoverWellFormed(j, f.path);
  }

  lemma DocumentWithin(p: PackageJson, objects: set<JsonObject>)
    requires Within(StoreOf(p.repr), Ref(p.json), p.tree, objects) && WellFormed(p.tree)
    ensures p.Valid()
  {
  }

  lemma ApplyNone(j: Json)
    ensures Apply(j, []) == Some(j)
  {
  }

  lemma ApplyNext(j: Json, fixes: seq<Fix>, i: nat)
    requires i < |fixes| && Apply(j, fixes[..i]).Some?
    ensures var before := Apply(j, fixes[..i]).value;
            Apply(j, fixes[..i + 1])
              == if Settable(before, fixes[i].path) then Some(Set(before, fixes[i].path, fixes[i].expected)) else None
  {
    assert fixes[..i + 1][..i] == fixes[..i];
  }

  lemma ApplyFails(j: Json, fixes: seq<Fix>, i: nat)
    requires i < |fixes| && Apply(j, fixes[..i + 1]).None?
    ensures Apply(j, fixes).None?
  {
    ApplyConcat(j, fixes[..i + 1], fixes[i + 1..]);
    assert fixes[..i + 1] + fixes[i + 1..] == fixes;
  }

  // ---------------------------------------------------------------- counting

  /** The first entry that is for the same version as `v`, or -1 if there is none. */
  ghost predicate FoundAt(vs: seq<VersionCount>, v: Json, i: int)
    requires -1 <= i < |vs|
  {
    && (i >= 0 ==> Identical(vs[i].version, v))
    && forall k :: 0 <= k < (if i == -1 then |vs| else i) ==> !Identical(vs[k].version, v)
  }

  lemma {:induction false} CountedAt(vs: seq<VersionCount>, v: Json, i: int)
    requires -1 <= i < |vs|
    requires FoundAt(vs, v, i)
    ensures Counted(vs, v) == if i == -1 then vs + [VersionCount(v, 1)] else vs[i := vs[i].(count := vs[i].count + 1)]
  {
    if vs != [] && !Identical(vs[0].version, v) {
      CountedAt(vs[1..], v, if i == -1 then -1 else i - 1);
      assert [vs[0]] + vs[1..] == vs;
    }
  }

  method FindVersion(vs: seq<VersionCount>, v: Json) returns (i: int)
    ensures -1 <= i < |vs| && FoundAt(vs, v, i)
  {
    i := 0;
    while i < |vs|
      invariant 0 <= i <= |vs| && forall k :: 0 <= k < i ==> !Identical(vs[k].version, v)
    {
      if Identical(vs[i].version, v) { return; }
      i := i + 1;
    }
    i := -1;
  }

  ghost predicate Descending(vs: seq<VersionCount>) {
    forall i, k :: 0 <= i < k < |vs| ==> vs[i].count >= vs[k].count
  }

  ghost predicate SameElements(a: seq<VersionCount>, b: seq<VersionCount>) {
    multiset(a) == multiset(b)
  }

  lemma InsertedDescending(r: seq<VersionCount>, x: VersionCount, k: nat)
    requires Descending(r) && k <= |r| && (k > 0 ==> r[k - 1].count >= x.count)
             && forall l :: k <= l < |r| ==> r[l].count < x.count
    ensures Descending(r[..k] + [x] + r[k..])
  {
    var s := r[..k] + [x] + r[k..];
    assert forall i :: 0 <= i < |s| ==> s[i] == if i < k then r[i] else if i == k then x else r[i - 1];
  }

  lemma InsertedElements(r: seq<VersionCount>, x: VersionCount, k: nat, was: seq<VersionCount>)
    requires k <= |r| && SameElements(r, was)
    ensures SameElements(r[..k] + [x] + r[k..], was + [x])
  {
    assert r == r[..k] + r[k..];
  }

  /** Put `x` after everything counted at least as often. */
  method Insert(r: seq<VersionCount>, x: VersionCount, ghost was: seq<VersionCount>) returns (r': seq<VersionCount>)
    requires Descending(r) && SameElements(r, was)
    ensures Descending(r') && SameElements(r', was + [x])
    ensures r' != [] && r'[0] == if r == [] || r[0].count < x.count then x else r[0]
  {
    var k := |r|;
    while k > 0 && r[k - 1].count < x.count
      invariant 0 <= k <= |r| && forall l :: k <= l < |r| ==> r[l].count < x.count
    {
      k := k - 1;
    }
    InsertedDescending(r, x, k);
    InsertedElements(r, x, k, was);
    hide SameElements, Descending;
    r' := r[..k] + [x] + r[k..];
  }

  /** Stable sort by falling count, so that the first of the most counted comes first. */
  method SortByCount(vs: seq<VersionCount>) returns (r: seq<VersionCount>)
    ensures SameElements(r, vs) && Descending(r)
    ensures vs != [] ==> r != [] && r[0] == vs[Winner(vs)]
  {
    r := [];
    var i := 0;
    assert SameElements(r, vs[..0]) && Descending(r);
    hide SameElements, Descending, Winner;
    while i < |vs|
      invariant 0 <= i <= |vs| && SameElements(r, vs[..i]) && Descending(r)
      invariant if i == 0 then r == [] else r != [] && r[0] == vs[Winner(vs[..i])]
    {
      WinnerNext(vs, i);
      r := Insert(r, vs[i], vs[..i]);
      i := i + 1;
    }
    assert vs[..i] == vs;
  }

  lemma WinnerNext(vs: seq<VersionCount>, i: nat)
    requires i < |vs|
    ensures vs[..i + 1] == vs[..i] + [vs[i]]
    ensures Winner(vs[..i + 1]) == if i == 0 || vs[Winner(vs[..i])].count < vs[i].count then i else Winner(vs[..i])
  {
    assert vs[..i + 1][..i] == vs[..i];
  }

  /** Each dependency that was voted on has the tally of its votes. */
  ghost predicate HoldsTallies(used: map<string, seq<VersionCount>>, votes: string -> seq<Json>) {
    forall d :: (d in used <==> votes(d) != []) && (d in used ==> used[d] == Tally(votes(d)))
  }

  lemma NoTally()
    ensures Tally([]) == []
  {
  }

  /** The votes with one more for a version of `dep`, unless that is any version. */
  ghost function WithVote(votes: string -> seq<Json>, dep: string, version: Json): string -> seq<Json> {
    d => if d == dep && version != Text("*") then votes(d) + [version] else votes(d)
  }

  lemma OneVote(used: map<string, seq<VersionCount>>, votes: string -> seq<Json>, dep: string, version: Json)
    requires HoldsTallies(used, votes) && version != Text("*")
    ensures HoldsTallies(used[dep := Tally(votes(dep) + [version])], WithVote(votes, dep, version))
  {
    hide Tally;
  }

  lemma TallyNext(votes: seq<Json>, v: Json)
    ensures Tally(votes + [v]) == Counted(Tally(votes), v)
  {
    assert (votes + [v])[..|votes|] == votes;
  }

  /** The versions of our own packages are those in the documents `js`. */
  ghost predicate KnowsOurs(ours: map<string, Json>, js: seq<Json>) {
    forall d ::
      OurVersion(js, d) == if d in ours then Some(ours[d]) else if IsInherited(d) then Some(Undefined) else None
  }

  /** The key that a name becomes. */
  function NameKey(name: Value): string {
    if name.Ref? then "[object Object]" else KeyOf(Scalar(name))
  }

  class AllVersionsTheSame {
    var ourPackages: map<string, Json>
    var usedDeps: map<string, seq<VersionCount>>

    constructor ()
      ensures Prepared([])
    {
      ourPackages, usedDeps := map[], map[];
    }

    ghost predicate Prepared(js: seq<Json>)
      reads this
    {
      KnowsOurs(ourPackages, js) && HoldsTallies(usedDeps, VotesFor(js))
    }

    /** Count a version of a dependency. With an inherited name this throws, as a function is not
        a list of versions. */
    method RecordDep(dep: string, version: Json, ghost votes: string -> seq<Json>) returns (ok: bool)
      requires HoldsTallies(usedDeps, votes)
      modifies this`usedDeps
      ensures ok <==> (IsInherited(dep) ==> version == Text("*"))
      ensures ok ==> HoldsTallies(usedDeps, WithVote(votes, dep, version))
    {
      hide Tally, Counted, IsInherited;
      if version == Text("*") {
        SameVotes(usedDeps, votes, WithVote(votes, dep, version));
        return true;
      }
      if IsInherited(dep) { return false; }
      var vs := if dep in usedDeps then usedDeps[dep] else [];
      NoTally();
      TallyNext(votes(dep), version);
      var i := FindVersion(vs, version);
      CountedAt(vs, version, i);
      vs := if i == -1 then vs + [VersionCount(version, 1)] else vs[i := vs[i].(count := vs[i].count + 1)];
      OneVote(usedDeps, votes, dep, version);
      usedDeps := usedDeps[dep := vs];
      ok := true;
    }

    /** Record every dependency of a section, if it is there. */
    method RecordDeps(deps: Value, ghost s: Json, ghost repr: set<JsonObject>, ghost votes: string -> seq<Json>)
      returns (ok: bool)
      requires HoldsTallies(usedDeps, votes) && Denotes(StoreOf(repr), deps, s) && WellFormed(s)
      requires s.Record? || Keyless(s)
      modifies this`usedDeps
      ensures ok <==> CountableSection(s)
      ensures ok ==> HoldsTallies(usedDeps, Plus(votes, s))
    {
      hide *;
      SectionHeld(deps, s, repr);
      if !deps.Ref? {
        NoSection(usedDeps, votes, s);
        return true;
      }
      var i := 0;
      VotesStart(usedDeps, votes, s);
      while i < |deps.o.keys|
        invariant 0 <= i <= |deps.o.keys| && deps.o.keys == s.keys
        invariant HoldsTallies(usedDeps, VotesUpTo(votes, s, i)) && CountableUpTo(s, i)
      {
        var dep := deps.o.keys[i];
        EntryHeld(deps, s, repr, i);
        var version := Read(deps.o.fields[dep], s.fields[dep], repr);
        ok := RecordDep(dep, version, VotesUpTo(votes, s, i));
        CountableNext(s, i);
        if !ok { return; }
        SameVotesNext(this, votes, s, i);
        i := i + 1;
      }
      VotesEnd(usedDeps, votes, s);
      CountableEnds(s);
      ok := true;
    }

    /** Note the version of the package under its name. */
    method RecordOurs(pkg: PackageJson, ghost js: seq<Json>)
      requires KnowsOurs(ourPackages, js) && pkg.Valid() && Document(pkg.tree)
      modifies this`ourPackages
      ensures KnowsOurs(ourPackages, js + [pkg.tree])
    {
      FieldsWell(pkg);
      hide *;
      var name := pkg.GetSection("name");
      var version := pkg.GetSection("version");
      var ours := Read(version, Field(pkg.tree, "version"), pkg.repr);
      NameKeyIs(StoreOf(pkg.repr), name, Field(pkg.tree, "name"));
      OursNext(ourPackages, js, pkg.tree);
      ourPackages := ourPackages[NameKey(name) := ours];
    }

    method RecordUses(pkg: PackageJson, ghost js: seq<Json>) returns (ok: bool)
      requires HoldsTallies(usedDeps, VotesFor(js)) && pkg.Valid() && Document(pkg.tree)
      modifies this`usedDeps
      ensures pkg.tree.Record? && (ok <==> Countable(pkg.tree))
      ensures ok ==> HoldsTallies(usedDeps, VotesFor(js + [pkg.tree]))
    {
      hide *;
      DocumentSections(pkg.tree);
      var dependencies := pkg.GetSection("dependencies");
      var devDependencies := pkg.GetSection("devDependencies");
      ghost var first, second := Field(pkg.tree, "dependencies"), Field(pkg.tree, "devDependencies");
      CountableSections(pkg.tree);
      ok := RecordDeps(dependencies, first, pkg.repr, VotesFor(js));
      if !ok { return; }
      ok := RecordDeps(devDependencies, second, pkg.repr, Plus(VotesFor(js), first));
      if !ok { return; }
      VotesNext(usedDeps, js, pkg.tree);
    }

    /** Take note of a package: its own version and the versions it uses. */
    method Prepare(pkg: PackageJson, ghost js: seq<Json>) returns (ok: bool)
      requires Prepared(js) && pkg.Valid() && Document(pkg.tree)
      modifies this
      ensures pkg.tree.Record? && (ok <==> Countable(pkg.tree))
      ensures ok ==> Prepared(js + [pkg.tree])
    {
      hide HoldsTallies, Document, OurVersion, Votes, Countable;
      RecordOurs(pkg, js);
      ok := RecordUses(pkg, js);
    }

    // -------------------------------------------------------------- choosing

    /** The version that the rule asks for. */
    ghost function Chosen(dep: string): Option<Json>
      requires dep in usedDeps ==> usedDeps[dep] != []
      reads this
    {
      if dep in ourPackages then Some(ourPackages[dep])
      else if IsInherited(dep) then Some(Undefined)
      else if dep in usedDeps then Some(usedDeps[dep][Winner(usedDeps[dep])].version)
      else None
    }

    ghost predicate Decides(js: seq<Json>)
      reads this
    {
      (forall d :: d in usedDeps ==> usedDeps[d] != []) && forall d :: Chosen(d) == Target(js, d)
    }

    lemma PreparedDecides(js: seq<Json>)
      requires Prepared(js)
      ensures Decides(js)
    {
      forall d ensures (d in usedDeps ==> usedDeps[d] != []) && (Votes(js, d) == [] <==> Tally(Votes(js, d)) == []) {
        if Votes(js, d) != [] { WinnerHasMost(Votes(js, d), Undefined); }
      }
    }

    method ValidateDep(pkg: PackageJson, section: string, dep: string, ghost js: seq<Json>)
      requires Decides(js) && pkg.Valid() && section in SECTIONS && "__proto__" !in Split(dep, '.')
      modifies this`usedDeps, pkg`reports
      ensures Decides(js) && pkg.Valid()
      ensures pkg.reports == old(pkg.reports) + Mismatch(pkg.tree, section, dep, js)
    {
      PathNoPrototype(section, dep);
      hide Decides, Target, Split, Get, Same, IsInherited;
      Decided(this, dep, js);
      if dep in ourPackages || IsInherited(dep) {
        pkg.ExpectJson(section + "." + dep, if dep in ourPackages then ourPackages[dep] else Undefined);
        return;
      }
      if dep !in usedDeps { return; }
      SortVersions(dep, js);
      pkg.ExpectJson(section + "." + dep, usedDeps[dep][0].version);
    }

    /** Sort the versions of one dependency where they are kept. */
    method SortVersions(dep: string, ghost js: seq<Json>)
      requires Decides(js) && dep in usedDeps
      modifies this`usedDeps
      ensures Decides(js) && usedDeps.Keys == old(usedDeps.Keys) && usedDeps[dep] != []
      ensures usedDeps[dep][0].version == old(usedDeps[dep][Winner(usedDeps[dep])].version)
    {
      hide Winner, Target;
      ghost var before := usedDeps;
      assert forall d :: Chosen(d) == Target(js, d);
      var versions := SortByCount(usedDeps[dep]);
      SortedWinner(versions);
      usedDeps := usedDeps[dep := versions];
      assert forall d :: d != dep && d in before ==> usedDeps[d] == before[d];
    }

    method ValidateDeps(pkg: PackageJson, section: string, ghost js: seq<Json>)
      requires Decides(js) && pkg.Valid() && Document(pkg.tree) && section in SECTIONS
      modifies this`usedDeps, pkg`reports
      ensures Decides(js) && pkg.Valid()
      ensures pkg.reports == old(pkg.reports) + SectionReports(pkg.tree, section, js)
    {
      ghost var before := pkg.reports;
      DocumentRecord(pkg.tree);
      KeysNoPrototype(pkg.tree, section);
      var keys := pkg.Dependencies(section);
      SectionReported(pkg.tree, section, js);
      hide *;
      ValidateStarts(this, pkg, section, keys, before, js);
      var i := 0;
      while i < |keys|
        invariant 0 <= i <= |keys| && ValidatedUpTo(pkg, section, keys, i, before, js)
      {
        ValidateNext(pkg, section, keys, i, before, js);
        i := i + 1;
      }
      ValidateEnds(this, pkg, section, keys, before, js);
    }

    /** The first `i` of the names in a section have been looked at. */
    ghost predicate ValidatedUpTo(pkg: PackageJson, section: string, keys: seq<string>, i: nat, before: seq<Fix>,
                                  js: seq<Json>)
      requires i <= |keys|
      reads this, pkg, pkg.repr
    {
      Decides(js) && pkg.Valid() && pkg.reports == before + Mismatches(pkg.tree, section, keys[..i], js)
    }

    method ValidateNext(pkg: PackageJson, section: string, keys: seq<string>, i: nat, ghost before: seq<Fix>,
                        ghost js: seq<Json>)
      requires i < |keys| && ValidatedUpTo(pkg, section, keys, i, before, js)
      requires section in SECTIONS && "__proto__" !in Split(keys[i], '.')
      modifies this`usedDeps, pkg`reports
      ensures ValidatedUpTo(pkg, section, keys, i + 1, before, js)
    {
      hide Decides, Mismatch, Mismatches, PackageJson.Valid, Split;
      MismatchesNext(pkg.tree, section, keys, i, js);
      ValidateDep(pkg, section, keys[i], js);
    }

    method Validate(pkg: PackageJson, ghost js: seq<Json>)
      requires Decides(js) && pkg.Valid() && Document(pkg.tree)
      modifies this`usedDeps, pkg`reports
      ensures Decides(js) && pkg.Valid()
      ensures pkg.reports == old(pkg.reports) + Reports(pkg.tree, js)
    {
      hide Decides, SectionReports, WellFormed, Document;
      assert SECTIONS[0] in SECTIONS && SECTIONS[1] in SECTIONS;
      ValidateDeps(pkg, "dependencies", js);
      ValidateDeps(pkg, "devDependencies", js);
    }
  }

  lemma ValidateStarts(rule: AllVersionsTheSame, pkg: PackageJson, section: string, keys: seq<string>,
                       before: seq<Fix>, js: seq<Json>)
    requires rule.Decides(js) && pkg.Valid() && pkg.reports == before
    ensures rule.ValidatedUpTo(pkg, section, keys, 0, before, js)
  {
    hide AllVersionsTheSame.Decides, PackageJson.Valid;
  }

  lemma ValidateEnds(rule: AllVersionsTheSame, pkg: PackageJson, section: string, keys: seq<string>, before: seq<Fix>,
                     js: seq<Json>)
    requires rule.ValidatedUpTo(pkg, section, keys, |keys|, before, js)
    ensures rule.Decides(js) && pkg.Valid()
    ensures pkg.reports == before + Mismatches(pkg.tree, section, keys, js)
  {
    hide AllVersionsTheSame.Decides, PackageJson.Valid;
    assert keys[..|keys|] == keys;
  }

  lemma Decided(rule: AllVersionsTheSame, dep: string, js: seq<Json>)
    requires rule.Decides(js)
    ensures dep in rule.usedDeps ==> rule.usedDeps[dep] != []
    ensures rule.Chosen(dep) == Target(js, dep)
  {
  }

  lemma SortedWinner(vs: seq<VersionCount>)
    requires vs != [] && Descending(vs)
    ensures Winner(vs) == 0
  {
  }

  lemma NameKeyIs(store: Store, name: Value, j: Json)
    requires Denotes(store, name, j)
    ensures NameKey(name) == KeyOf(j)
  {
    Scalars(store, name, j);
  }

  lemma OursNext(ours: map<string, Json>, js: seq<Json>, j: Json)
    requires j.Record? && KnowsOurs(ours, js)
    ensures KnowsOurs(ours[KeyOf(Field(j, "name")) := Field(j, "version")], js + [j])
  {
    assert (js + [j])[..|js|] == js;
    hide KeyOf, Field;
  }

  lemma FieldsWell(pkg: PackageJson)
    requires pkg.Valid() && Document(pkg.tree)
    ensures pkg.tree.Record? && forall k :: WellFormed(Field(pkg.tree, k))
  {
  }

  lemma DocumentSections(j: Json)
    requires Document(j)
    ensures j.Record? && WellFormed(Field(j, "dependencies")) && WellFormed(Field(j, "devDependencies"))
    ensures Field(j, "dependencies").Record? || Keyless(Field(j, "dependencies"))
    ensures Field(j, "devDependencies").Record? || Keyless(Field(j, "devDependencies"))
  {
    assert SECTIONS[0] in SECTIONS && SECTIONS[1] in SECTIONS;
  }

  lemma VotesNext(used: map<string, seq<VersionCount>>, js: seq<Json>, j: Json)
    requires j.Record?
    requires HoldsTallies(used, Plus(Plus(VotesFor(js), Field(j, "dependencies")), Field(j, "devDependencies")))
    ensures HoldsTallies(used, VotesFor(js + [j]))
  {
    assert (js + [j])[..|js|] == js;
    var f := Plus(Plus(VotesFor(js), Field(j, "dependencies")), Field(j, "devDependencies"));
    forall d ensures f(d) == VotesFor(js + [j])(d) {
      assert Votes(js + [j], d) == Votes(js, d) + VotesOf(j, d);
    }
    SameVotes(used, f, VotesFor(js + [j]));
  }

  lemma SectionHeld(deps: Value, s: Json, repr: set<JsonObject>)
    requires Denotes(StoreOf(repr), deps, s)
    ensures deps.Ref? <==> s.Record?
    ensures deps.Ref? ==> deps.o.keys == s.keys
  {
  }

  lemma DocumentRecord(j: Json)
    requires Document(j)
    ensures j.Record?
  {
  }

  lemma SectionReported(j: Json, section: string, js: seq<Json>)
    requires j.Record?
    ensures var s := Field(j, section);
            SectionReports(j, section, js) == if s.Record? then Mismatches(j, section, s.keys, js) else []
    ensures Mismatches(j, section, [], js) == []
  {
  }

  lemma KeysNoPrototype(j: Json, section: string)
    requires Document(j) && section in SECTIONS
    ensures j.Record?
    ensures Field(j, section).Record? ==>
              forall i :: 0 <= i < |Field(j, section).keys| ==> "__proto__" !in Split(Field(j, section).keys[i], '.')
  {
    var s := Field(j, section);
    assert NamesNoPrototype(s) && WellFormed(s);
    hide Split;
    if s.Record? {
      forall i | 0 <= i < |s.keys| ensures "__proto__" !in Split(s.keys[i], '.') { assert s.keys[i] in s.keys; }
    }
  }

  lemma PathNoPrototype(section: string, dep: string)
    requires section in SECTIONS && "__proto__" !in Split(dep, '.')
    ensures "__proto__" !in Split(section + "." + dep, '.')
  {
    DepPathParts(section, dep);
    assert |"__proto__"| == 9 && |"dependencies"| == 12 && |"devDependencies"| == 15;
    hide Split;
  }

  /** The first `n` entries of a section can be counted. */
  ghost predicate CountableUpTo(s: Json, n: nat) {
    s.Record? && n <= |s.keys| && forall k :: 0 <= k < n ==> CountableEntry(s, k)
  }

  ghost predicate CountableEntry(s: Json, k: nat)
    requires s.Record? && k < |s.keys|
  {
    s.keys[k] in s.fields && (IsInherited(s.keys[k]) ==> s.fields[s.keys[k]] == Text("*"))
  }

  lemma CountableNext(s: Json, n: nat)
    requires WellFormed(s) && s.Record? && n < |s.keys| && CountableUpTo(s, n) && s.keys[n] in s.fields
    ensures if IsInherited(s.keys[n]) ==> s.fields[s.keys[n]] == Text("*") then CountableUpTo(s, n + 1)
            else !CountableSection(s)
  {
    hide IsInherited;
  }

  lemma CountableEnds(s: Json)
    requires WellFormed(s) && s.Record? && CountableUpTo(s, |s.keys|)
    ensures CountableSection(s)
  {
    hide IsInherited;
    forall d | d in s.fields && IsInherited(d) ensures s.fields[d] == Text("*") {
      assert d in s.keys;
      var k :| 0 <= k < |s.keys| && s.keys[k] == d;
      assert CountableEntry(s, k);
    }
  }

  lemma CountableSections(j: Json)
    requires j.Record?
    ensures Countable(j) <==>
            CountableSection(Field(j, "dependencies")) && CountableSection(Field(j, "devDependencies"))
  {
    hide CountableSection;
    assert SECTIONS[0] in SECTIONS && SECTIONS[1] in SECTIONS;
  }

  lemma EntryHeld(deps: Value, s: Json, repr: set<JsonObject>, i: nat)
    requires Denotes(StoreOf(repr), deps, s) && s.Record? && i < |s.keys| && WellFormed(s)
    ensures var dep := s.keys[i];
            && dep in s.fields && dep in deps.o.fields && WellFormed(s.fields[dep])
            && Denotes(StoreOf(repr), deps.o.fields[dep], s.fields[dep])
  {
    assert s.keys[i] in s.keys;
  }

  lemma NoSection(used: map<string, seq<VersionCount>>, votes: string -> seq<Json>, s: Json)
    requires HoldsTallies(used, votes) && !s.Record?
    ensures HoldsTallies(used, Plus(votes, s)) && CountableSection(s)
  {
    SameVotes(used, votes, Plus(votes, s));
  }

  lemma VotesStart(used: map<string, seq<VersionCount>>, votes: string -> seq<Json>, s: Json)
    requires HoldsTallies(used, votes) && s.Record?
    ensures HoldsTallies(used, VotesUpTo(votes, s, 0)) && CountableUpTo(s, 0)
  {
    SameVotes(used, votes, VotesUpTo(votes, s, 0));
  }

  lemma VotesEnd(used: map<string, seq<VersionCount>>, votes: string -> seq<Json>, s: Json)
    requires s.Record? && WellFormed(s) && HoldsTallies(used, VotesUpTo(votes, s, |s.keys|))
    ensures HoldsTallies(used, Plus(votes, s))
  {
    assert s.keys[..|s.keys|] == s.keys;
    SameVotes(used, VotesUpTo(votes, s, |s.keys|), Plus(votes, s));
  }

  ghost function VotesFor(js: seq<Json>): string -> seq<Json> {
    d => Votes(js, d)
  }

  ghost function Plus(votes: string -> seq<Json>, s: Json): string -> seq<Json> {
    d => votes(d) + VotesIn(s, d)
  }

  ghost function VotesUpTo(votes: string -> seq<Json>, s: Json, i: nat): string -> seq<Json>
    requires s.Record? && i <= |s.keys|
  {
    d => votes(d) + if d in s.keys[..i] then VotesIn(s, d) else []
  }

  lemma SameVotes(used: map<string, seq<VersionCount>>, f: string -> seq<Json>, g: string -> seq<Json>)
    requires HoldsTallies(used, f) && forall d :: f(d) == g(d)
    ensures HoldsTallies(used, g)
  {
  }

  lemma SameVotesNext(rule: AllVersionsTheSame, votes: string -> seq<Json>, s: Json, i: nat)
    requires s.Record? && WellFormed(s) && i < |s.keys|
    requires HoldsTallies(rule.usedDeps, WithVote(VotesUpTo(votes, s, i), s.keys[i], s.fields[s.keys[i]]))
    ensures HoldsTallies(rule.usedDeps, VotesUpTo(votes, s, i + 1))
  {
    var before, after := WithVote(VotesUpTo(votes, s, i), s.keys[i], s.fields[s.keys[i]]), VotesUpTo(votes, s, i + 1);
    forall d ensures before(d) == after(d) { VotesOneMore(votes, s, i, d); }
    hide HoldsTallies, OneMore, VotesUpTo;
    SameVotes(rule.usedDeps, before, after);
  }

  lemma VotesOneMore(votes: string -> seq<Json>, s: Json, i: nat, d: string)
    requires s.Record? && WellFormed(s) && i < |s.keys|
    ensures s.keys[i] in s.fields
    ensures WithVote(VotesUpTo(votes, s, i), s.keys[i], s.fields[s.keys[i]])(d) == VotesUpTo(votes, s, i + 1)(d)
  {
    var dep := s.keys[i];
    assert dep in s.keys;
    assert s.keys[..i + 1] == s.keys[..i] + [dep] && dep !in s.keys[..i];
    assert VotesIn(s, dep) == if s.fields[dep] != Text("*") then [s.fields[dep]] else [];
  }
}
