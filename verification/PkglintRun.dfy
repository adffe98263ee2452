/** Runs of the version rule over all packages, with and without fixes. */
module PkglintRun {
  import opened Options
  import opened JsonValues
  import opened JsonObjects
  import opened VersionVoting
  import opened VersionFixes
  import opened FixOutcomes
  import opened DottedNames
  import opened SecondRound
  import opened SavedDocuments
  import opened Pkglint

  /** The package holds the document `j` and has the reports `fixes`. */
  ghost predicate Ready(p: PackageJson, j: Json, fixes: seq<Fix>)
    reads p, p.repr
  {
    p.Valid() && p.tree == j && p.reports == fixes
  }

  /** No two packages share anything. */
  ghost predicate Separate(pkgs: seq<PackageJson>)
    reads pkgs
  {
    forall i, k :: 0 <= i < k < |pkgs| ==> pkgs[i] != pkgs[k] && pkgs[i].repr !! pkgs[k].repr
  }

  ghost function Objects(pkgs: seq<PackageJson>): set<JsonObject>
    reads pkgs
  {
    set i, o | 0 <= i < |pkgs| && o in pkgs[i].repr :: o
  }

  ghost function Trees(pkgs: seq<PackageJson>): (r: seq<Json>)
    reads pkgs
    ensures |r| == |pkgs|
  {
    seq(|pkgs|, i requires 0 <= i < |pkgs| reads pkgs => pkgs[i].tree)
  }

  /** The first `n` packages have been taken note of. */
  ghost predicate PreparedUpTo(rule: AllVersionsTheSame, js: seq<Json>, n: nat)
    requires n <= |js|
    reads rule
  {
    rule.Prepared(js[..n]) && CountedUpTo(js, n)
  }

  method PrepareNext(rule: AllVersionsTheSame, pkg: PackageJson, ghost js: seq<Json>, ghost i: nat)
    returns (ok: bool)
    requires i < |js| && PreparedUpTo(rule, js, i) && pkg.Valid() && pkg.tree == js[i] && Document(js[i])
    modifies rule
    ensures if ok then PreparedUpTo(rule, js, i + 1) else !AllCountable(js)
  {
    hide AllVersionsTheSame.Prepared, Document, Countable, PackageJson.Valid;
    Prefixes(js);
    ok := rule.Prepare(pkg, js[..i]);
    CountedNext(js, i);
  }

  /** The rule takes note of every package, unless one lists what it cannot count. */
  method PrepareAll(rule: AllVersionsTheSame, pkgs: seq<PackageJson>, ghost js: seq<Json>) returns (ok: bool)
    requires rule.Prepared([]) && Documents(js) && |js| == |pkgs|
    requires forall i :: 0 <= i < |pkgs| ==> pkgs[i].Valid() && pkgs[i].tree == js[i]
    modifies rule
    ensures ok <==> AllCountable(js)
    ensures ok ==> rule.Prepared(js)
  {
    DocumentsAt(js);
    PreparedStarts(rule, js);
    hide *;
    var i := 0;
    while i < |pkgs|
      invariant 0 <= i <= |pkgs| && PreparedUpTo(rule, js, i)
    {
      ok := PrepareNext(rule, pkgs[i], js, i);
      if !ok { return; }
      i := i + 1;
    }
    PreparedEnds(rule, js);
    ok := true;
  }

  ghost predicate CountedUpTo(js: seq<Json>, n: nat)
    requires n <= |js|
  {
    forall i :: 0 <= i < n ==> js[i].Record? && Countable(js[i])
  }

  lemma PreparedStarts(rule: AllVersionsTheSame, js: seq<Json>)
    requires rule.Prepared([])
    ensures PreparedUpTo(rule, js, 0)
  {
    hide AllVersionsTheSame.Prepared;
    assert js[..0] == [];
  }

  lemma PreparedEnds(rule: AllVersionsTheSame, js: seq<Json>)
    requires PreparedUpTo(rule, js, |js|)
    ensures rule.Prepared(js) && AllCountable(js)
  {
    hide AllVersionsTheSame.Prepared, Countable;
    assert js[..|js|] == js;
  }

  lemma CountedNext(js: seq<Json>, i: nat)
    requires i < |js| && js[i].Record? && CountedUpTo(js, i)
    ensures if Countable(js[i]) then CountedUpTo(js, i + 1) else !AllCountable(js)
  {
    hide Countable;
  }

  lemma Prefixes(js: seq<Json>)
    ensures js[..0] == [] && js[..|js|] == js
    ensures forall i :: 0 <= i < |js| ==> js[..i + 1] == js[..i] + [js[i]]
  {
  }

  lemma DocumentsAt(js: seq<Json>)
    requires Documents(js)
    ensures forall i :: 0 <= i < |js| ==> js[i].Record?
    ensures forall i :: 0 <= i < |js| ==> Document(js[i])
  {
  }

  method ValidateOne(rule: AllVersionsTheSame, pkg: PackageJson, ghost j: Json, ghost js: seq<Json>)
    requires rule.Decides(js) && Ready(pkg, j, []) && Document(j)
    modifies rule`usedDeps, pkg`reports
    ensures rule.Decides(js) && j.Record? && Ready(pkg, j, Reports(j, js))
  {
    rule.Validate(pkg, js);
  }

  method FixOne(pkg: PackageJson, ghost j: Json, ghost js: seq<Json>) returns (ok: bool)
    requires Manifests(js) && Manifest(j) && Ready(pkg, j, Reports(j, js))
    modifies pkg, pkg.repr
    ensures fresh(pkg.repr - old(pkg.repr))
    ensures ok <==> Apply(j, Reports(j, js)).Some?
    ensures ok ==> Ready(pkg, Apply(j, Reports(j, js)).value, [])
  {
    ReportsNoPrototype(j, js);
    ok := pkg.ApplyFixes();
  }

  /** No fix is written through the prototype of an object. */
  lemma ReportsNoPrototype(j: Json, js: seq<Json>)
    requires Manifests(js) && Manifest(j)
    ensures forall f :: f in Reports(j, js) ==> !f.expected.Record? && "__proto__" !in f.path
  {
    ReportsMembers(j, js);
    assert NoPrototype(j);
    assert |"__proto__"| == 9 && |SECTIONS[0]| == 12 && |SECTIONS[1]| == 15;
    hide Reports, Manifests, Mismatch, NoPrototype;
    forall f | f in Reports(j, js) ensures !f.expected.Record? && "__proto__" !in f.path {
      var s, d :| FixOf(j, js, s, d, f);
      assert s == SECTIONS[0] || s == SECTIONS[1];
      MismatchReported(j, s, d, js);
      assert NamesNoPrototype(Field(j, s)) by { NamesAt(j, s); }
    }
  }

  lemma NamesAt(j: Json, section: string)
    requires j.Record? && NoPrototype(j) && section in SECTIONS
    ensures NamesNoPrototype(Field(j, section))
  {
  }

  method ValidateAll(rule: AllVersionsTheSame, pkgs: seq<PackageJson>, ghost js: seq<Json>)
    requires rule.Decides(js) && Documents(js) && |js| == |pkgs| && Separate(pkgs)
    requires forall i :: 0 <= i < |pkgs| ==> Ready(pkgs[i], js[i], [])
    modifies rule, pkgs
    ensures Separate(pkgs) && Objects(pkgs) == old(Objects(pkgs))
    ensures forall i :: 0 <= i < |pkgs| ==> js[i].Record? && Ready(pkgs[i], js[i], Reports(js[i], js))
  {
    hide Ready, Documents, Document, Apply, Reports, AllVersionsTheSame.Decides;
    DocumentsAt(js);
    var i := 0;
    while i < |pkgs|
      invariant 0 <= i <= |pkgs| && rule.Decides(js) && Separate(pkgs)
      invariant forall k :: 0 <= k < |pkgs| ==> pkgs[k].repr == old(pkgs[k].repr)
      invariant forall k :: 0 <= k < i ==> js[k].Record? && Ready(pkgs[k], js[k], Reports(js[k], js))
      invariant forall k :: i <= k < |pkgs| ==> Ready(pkgs[k], js[k], [])
    {
      ValidateOne(rule, pkgs[i], js[i], js);
      i := i + 1;
    }
  }

  /** The fixes of the package all succeed, and it is what they make of it. */
  ghost predicate Done(pkg: PackageJson, j: Json, js: seq<Json>)
    reads pkg, pkg.repr
  {
    j.Record? && Apply(j, Reports(j, js)).Some? && Ready(pkg, Apply(j, Reports(j, js)).value, [])
  }

  ghost predicate Pending(pkg: PackageJson, j: Json, js: seq<Json>)
    reads pkg, pkg.repr
  {
    j.Record? && Manifest(j) && Ready(pkg, j, Reports(j, js))
  }

  ghost predicate Succeeds(j: Json, js: seq<Json>) {
    j.Record? && Apply(j, Reports(j, js)).Some?
  }

  method FixNext(pkg: PackageJson, ghost j: Json, ghost js: seq<Json>) returns (ok: bool)
    requires Manifests(js) && Pending(pkg, j, js)
    modifies pkg, pkg.repr
    ensures fresh(pkg.repr - old(pkg.repr))
    ensures ok <==> Succeeds(j, js)
    ensures ok ==> Done(pkg, j, js)
  {
    ok := FixOne(pkg, j, js);
  }

  method FixAll(pkgs: seq<PackageJson>, ghost js: seq<Json>) returns (ok: bool)
    requires Manifests(js) && |js| == |pkgs| && Separate(pkgs)
    requires forall i :: 0 <= i < |pkgs| ==> Pending(pkgs[i], js[i], js)
    modifies pkgs, Objects(pkgs)
    ensures ok <==> forall i :: 0 <= i < |pkgs| ==> Succeeds(js[i], js)
    ensures ok ==> forall i :: 0 <= i < |pkgs| ==> Done(pkgs[i], js[i], js)
  {
    hide Done, Pending, Succeeds, Manifests;
    var i := 0;
    while i < |pkgs|
      invariant 0 <= i <= |pkgs| && Separate(pkgs)
      invariant forall k :: 0 <= k < |pkgs| ==> fresh(pkgs[k].repr - old(pkgs[k].repr))
      invariant forall k :: 0 <= k < i ==> Succeeds(js[k], js) && Done(pkgs[k], js[k], js)
      invariant forall k :: i <= k < |pkgs| ==> Pending(pkgs[k], js[k], js)
    {
      ok := FixNext(pkgs[i], js[i], js);
      if !ok { return; }
      i := i + 1;
    }
    ok := true;
  }

  // ---------------------------------------------------------------- whole runs

  /** Each package holds a document of its own and has no reports yet. */
  ghost predicate AllRead(pkgs: seq<PackageJson>)
    reads pkgs, Objects(pkgs)
  {
    forall i :: 0 <= i < |pkgs| ==>
      pkgs[i].repr <= Objects(pkgs) && Document(pkgs[i].tree) && Ready(pkgs[i], pkgs[i].tree, [])
  }

  ghost predicate AllReported(pkgs: seq<PackageJson>, js: seq<Json>)
    reads pkgs, Objects(pkgs)
  {
    |js| == |pkgs| && forall i :: 0 <= i < |pkgs| ==>
      pkgs[i].repr <= Objects(pkgs) && js[i].Record? && Ready(pkgs[i], js[i], Reports(js[i], js))
  }

  /** All fixes succeed and every package is what its fixes make of it. */
  ghost predicate AllFixed(pkgs: seq<PackageJson>, js: seq<Json>)
    reads pkgs, Objects(pkgs)
  {
    |js| == |pkgs| && forall i :: 0 <= i < |pkgs| ==> pkgs[i].repr <= Objects(pkgs) && Done(pkgs[i], js[i], js)
  }

  lemma ReadAt(pkgs: seq<PackageJson>)
    requires AllRead(pkgs)
    ensures Documents(Trees(pkgs))
    ensures forall i :: 0 <= i < |pkgs| ==>
              pkgs[i].Valid() && pkgs[i].tree == Trees(pkgs)[i] && Ready(pkgs[i], Trees(pkgs)[i], [])
  {
    hide Document;
  }

  lemma ReportedAt(pkgs: seq<PackageJson>, js: seq<Json>)
    requires |js| == |pkgs|
             && forall i :: 0 <= i < |pkgs| ==> js[i].Record? && Ready(pkgs[i], js[i], Reports(js[i], js))
    ensures AllReported(pkgs, js)
  {
    hide Ready, Reports;
  }

  /** Prepare and validate all packages. */
  method Validated(pkgs: seq<PackageJson>) returns (ok: bool)
    requires Separate(pkgs) && AllRead(pkgs)
    modifies pkgs
    ensures ok <==> AllCountable(old(Trees(pkgs)))
    ensures ok ==> Separate(pkgs) && Objects(pkgs) == old(Objects(pkgs)) && AllReported(pkgs, old(Trees(pkgs)))
  {
    ghost var js := Trees(pkgs);
    hide *;
    ReadAt(pkgs);
    var rule := new AllVersionsTheSame();
    ok := PrepareAll(rule, pkgs, js);
    if !ok { return; }
    rule.PreparedDecides(js);
    ValidateAll(rule, pkgs, js);
    ReportedAt(pkgs, js);
  }

  /** A run without fixes: it succeeds exactly if the rule can count all versions and has nothing
      to say about the packages. */
  method Check(pkgs: seq<PackageJson>) returns (ok: bool)
    requires Separate(pkgs) && AllRead(pkgs)
    modifies pkgs
    ensures AllCountable(old(Trees(pkgs))) ==> AllReported(pkgs, old(Trees(pkgs)))
    ensures ok <==> AllCountable(old(Trees(pkgs))) && Silent(old(Trees(pkgs)))
  {
    ghost var js := Trees(pkgs);
    ok := Validated(pkgs);
    if !ok { return; }
    hide *;
    ReportedLength(pkgs, js);
    var i := 0;
    SilentStarts(js);
    while i < |pkgs|
      invariant 0 <= i <= |pkgs| == |js| && AllReported(pkgs, js) && SilentUpTo(js, i)
    {
      SilentNext(pkgs, js, i);
      if |pkgs[i].reports| > 0 { return false; }
      i := i + 1;
    }
    ok := true;
  }

  ghost predicate SilentUpTo(js: seq<Json>, n: nat)
    requires n <= |js|
  {
    forall i :: 0 <= i < n ==> js[i].Record? && Reports(js[i], js) == []
  }

  lemma SilentStarts(js: seq<Json>)
    ensures SilentUpTo(js, 0) && (SilentUpTo(js, |js|) <==> Silent(js))
  {
    hide Reports;
  }

  lemma SilentNext(pkgs: seq<PackageJson>, js: seq<Json>, i: nat)
    requires AllReported(pkgs, js) && i < |js| && SilentUpTo(js, i)
    ensures if |pkgs[i].reports| > 0 then !Silent(js) else SilentUpTo(js, i + 1)
  {
    hide Reports;
  }

  lemma ReportedLength(pkgs: seq<PackageJson>, js: seq<Json>)
    requires AllReported(pkgs, js)
    ensures |js| == |pkgs|
  {
  }

  lemma PendingAt(pkgs: seq<PackageJson>, js: seq<Json>)
    requires AllReported(pkgs, js) && Manifests(js)
    ensures |js| == |pkgs| && forall i :: 0 <= i < |pkgs| ==> Pending(pkgs[i], js[i], js)
  {
    hide Reports, Manifest;
  }

  lemma FixedAt(pkgs: seq<PackageJson>, js: seq<Json>)
    requires |js| == |pkgs| && forall i :: 0 <= i < |pkgs| ==> Done(pkgs[i], js[i], js)
    ensures AllFixed(pkgs, js)
  {
    hide Done;
  }

  lemma FixedOutcome(pkgs: seq<PackageJson>, js: seq<Json>)
    requires AllFixed(pkgs, js)
    ensures Outcome(js, Trees(pkgs))
  {
    forall i | 0 <= i < |js| ensures OutcomeAt(js, Trees(pkgs), i) {}
  }

  lemma SucceedIff(js: seq<Json>)
    requires Manifests(js)
    ensures (forall i :: 0 <= i < |js| ==> Succeeds(js[i], js)) <==> AllFixable(js)
  {
    forall i | 0 <= i < |js| ensures Succeeds(js[i], js) <==> js[i].Record? && Fixable(js[i], js) {
      FixesSucceedIff(js[i], js);
    }
    hide Succeeds, Fixable;
  }

  /** What the fixes leave can be read by another run. */
  lemma FixedRead(pkgs: seq<PackageJson>, js: seq<Json>)
    requires AllFixed(pkgs, js) && Manifests(js)
    ensures AllRead(pkgs)
  {
    FixedOutcome(pkgs, js);
    forall i | 0 <= i < |pkgs| ensures Document(pkgs[i].tree) {
      OutcomeDocument(js, Trees(pkgs), i);
    }
    hide Document;
  }

  /** A run with fixes, over documents that were read from files. It fails, for something throws,
      unless all versions can be counted and no fix is written beyond a plain entry, an earlier fix
      or an inherited name. If it succeeds, the packages are manifests again exactly if no
      dependency is astray, and the next run, without fixes and over the documents as they were
      saved, succeeds exactly if this one left nothing to object to or to stumble over. */
  method Lint(pkgs: seq<PackageJson>) returns (ok: bool)
    requires Separate(pkgs) && AllRead(pkgs) && Manifests(Trees(pkgs)) && AllWhole(Trees(pkgs))
    modifies pkgs, Objects(pkgs)
    ensures ok <==> AllCountable(old(Trees(pkgs))) && AllFixable(old(Trees(pkgs)))
    ensures ok ==> AllFixed(pkgs, old(Trees(pkgs))) && AllRead(pkgs)
    ensures ok ==> Documents(Saved(Trees(pkgs))) && AllWhole(Saved(Trees(pkgs)))
    ensures ok ==> (AllCountable(Saved(Trees(pkgs))) && Silent(Saved(Trees(pkgs)))
                    <==> StaysCountable(old(Trees(pkgs))) && Quiet(old(Trees(pkgs))))
    ensures ok && Manifests(Trees(pkgs)) <==> AllCountable(old(Trees(pkgs))) && AllPlain(old(Trees(pkgs)))
  {
    ghost var js := Trees(pkgs);
    hide *;
    ok := Validated(pkgs);
    if !ok { return; }
    PendingAt(pkgs, js);
    ok := FixAll(pkgs, js);
    SucceedIff(js);
    RunEnds(pkgs, js, ok);
  }

  lemma RunEnds(pkgs: seq<PackageJson>, js: seq<Json>, ok: bool)
    requires Manifests(js) && AllWhole(js) && |js| == |pkgs| && (ok <==> AllFixable(js))
    requires ok ==> forall i :: 0 <= i < |pkgs| ==> Done(pkgs[i], js[i], js)
    ensures ok ==> AllFixed(pkgs, js) && AllRead(pkgs)
    ensures ok ==> Documents(Saved(Trees(pkgs))) && AllWhole(Saved(Trees(pkgs)))
    ensures ok ==> (AllCountable(Saved(Trees(pkgs))) && Silent(Saved(Trees(pkgs)))
                    <==> StaysCountable(js) && Quiet(js))
    ensures ok && Manifests(Trees(pkgs)) <==> AllPlain(js)
  {
    hide *;
    SettlesIffNoDotted(js);
    OutcomeIffFixable(js);
    if ok {
      FixedAt(pkgs, js);
      FixedOutcome(pkgs, js);
      FixedRead(pkgs, js);
      NextRunIff(js, Trees(pkgs));
    }
    if rs :| Outcome(js, rs) && Manifests(rs) { OutcomesEqual(js, rs, Trees(pkgs)); }
  }
}
