/** One round of the version rule: what it reports, what its fixes do, and when it settles things. */
module VersionFixes {
  import opened Options
  import opened JsonValues
  import opened Splitting
  import opened VersionVoting

  function KeyOf(v: Json): string {
    match v
    case Undefined => "undefined"
    case Text(s) => s
    case Other(text) => text
    case Record(_, _) => "[object Object]"
  }

  /** The version of our own package of that name; of packages with one name the last one counts.
      An inherited name is found though there is no such package: what is found has no text. */
  function OurVersion(js: seq<Json>, dep: string): Option<Json> {
    if js == [] then if IsInherited(dep) then Some(Undefined) else None
    else
      var j := js[|js| - 1];
      if j.Record? && KeyOf(Field(j, "name")) == dep then Some(Field(j, "version")) else OurVersion(js[..|js| - 1], dep)
  }

  /** The version that every use of `dep` should have, if anything says so. */
  function Target(js: seq<Json>, dep: string): Option<Json> {
    if OurVersion(js, dep).Some? then OurVersion(js, dep)
    else
      var t := Tally(Votes(js, dep));
      if t == [] then None else Some(t[Winner(t)].version)
  }

  datatype Fix = Fix(path: seq<string>, expected: Json)

  function DepPath(section: string, dep: string): seq<string> {
    Split(section + "." + dep, '.')
  }

  function Mismatch(j: Json, section: string, dep: string, js: seq<Json>): seq<Fix> {
    var path, target := DepPath(section, dep), Target(js, dep);
    if target.Some? && !Same(Get(j, path), target.value) then [Fix(path, target.value)] else []
  }

  function Mismatches(j: Json, section: string, deps: seq<string>, js: seq<Json>): seq<Fix> {
    if deps == [] then []
      else Mismatches(j, section, deps[..|deps| - 1], js) + Mismatch(j, section, deps[|deps| - 1], js)
  }

  function SectionReports(j: Json, section: string, js: seq<Json>): seq<Fix>
    requires j.Record?
  {
    if Field(j, section).Record? then Mismatches(j, section, Field(j, section).keys, js) else []
  }

  /** What is reported about `j` when the packages are `js`. */
  function Reports(j: Json, js: seq<Json>): seq<Fix>
    requires j.Record?
  {
    SectionReports(j, SECTIONS[0], js) + SectionReports(j, SECTIONS[1], js)
  }

  /** The document after all fixes, unless one of them fails. */
  function Apply(j: Json, fixes: seq<Fix>): Option<Json> {
    if fixes == [] then Some(j)
    else
      var before, fix := Apply(j, fixes[..|fixes| - 1]), fixes[|fixes| - 1];
      if before.Some? && Settable(before.value, fix.path) then Some(Set(before.value, fix.path, fix.expected)) else None
  }

  lemma {:induction false} ApplyConcat(j: Json, a: seq<Fix>, b: seq<Fix>)
    ensures Apply(j, a + b) == if Apply(j, a).Some? then Apply(Apply(j, a).value, b) else None
    decreases |b|
  {
    if b == [] {
      assert a + b == a;
    } else {
      assert (a + b)[..|a + b| - 1] == a + b[..|b| - 1];
      ApplyConcat(j, a, b[..|b| - 1]);
    }
  }

  // ---------------------------------------------------------------- the intended outcome

  predicate Plain(dep: string) { '.' !in dep }

  function NewVersion(js: seq<Json>, dep: string, v: Json): Json {
    if Plain(dep) && Target(js, dep).Some? then Target(js, dep).value else v
  }

  function RetargetedSome(s: Json, done: seq<string>, js: seq<Json>): Json
    requires s.Record?
  {
    Record(s.keys, map d | d in s.fields :: if d in done then NewVersion(js, d, s.fields[d]) else s.fields[d])
  }

  function RetargetedSection(j: Json, section: string, js: seq<Json>): Json
    requires j.Record?
  {
    var s := Field(j, section);
    if s.Record? then With(j, section, RetargetedSome(s, s.keys, js)) else j
  }

  /** Every use of a dependency whose name has no dot moves to the version it should have. */
  function Retargeted(j: Json, js: seq<Json>): Json
    requires j.Record?
  {
    RetargetedSection(RetargetedSection(j, SECTIONS[0], js), SECTIONS[1], js)
  }

  /** A dependency with a dot in its name and a version it should have: its fix is for another path. */
  ghost predicate Astray(js: seq<Json>, dep: string) {
    !Plain(dep) && Target(js, dep) !in {None, Some(Undefined)}
  }

  /** No name with a dot in it has a version that its uses should have. */
  ghost predicate NoDotted(j: Json, js: seq<Json>)
    requires j.Record?
  {
    forall s, d :: s in SECTIONS && Field(j, s).Record? && d in Field(j, s).fields ==> !Astray(js, d)
  }

  lemma DepPathParts(section: string, dep: string)
    requires section in SECTIONS
    ensures DepPath(section, dep) == [section] + Split(dep, '.')
    ensures Plain(dep) ==> DepPath(section, dep) == [section, dep]
    ensures !Plain(dep) ==> |DepPath(section, dep)| > 2
  {
    SplitAt(section, '.', dep);
    SplitPlain(dep, '.');
  }

  /** Nothing is found at the path that a name with a dot is taken for. */
  lemma DottedNotThere(j: Json, section: string, dep: string)
    requires Manifest(j) && section in SECTIONS && !Plain(dep)
    ensures Get(j, DepPath(section, dep)) == Undefined
  {
    DepPathParts(section, dep);
    var s, path := Field(j, section), DepPath(section, dep);
    var inner := path[1..];
    if s.Record? {
      assert !Field(s, inner[0]).Record?;
      assert Get(s, inner) == Get(Field(s, inner[0]), inner[1..]) == Undefined;
    }
  }

  lemma SetInSection(j: Json, section: string, dep: string, v: Json)
    requires j.Record? && section in j.fields && j.fields[section].Record? && dep in j.fields[section].fields
    ensures Settable(j, [section, dep])
    ensures Set(j, [section, dep], v) == With(j, section, With(j.fields[section], dep, v))
    ensures Get(j, [section, dep]) == j.fields[section].fields[dep]
  {
    assert [section, dep][1..] == [dep] && [dep][1..] == [];
    assert Get(j, [section, dep]) == Get(j.fields[section], [dep]) == Get(j.fields[section].fields[dep], []);
  }

  lemma RetargetedEntries(s: Json, done: seq<string>, js: seq<Json>)
    requires s.Record?
    ensures var r := RetargetedSome(s, done, js);
      && r.Record? && r.keys == s.keys && r.fields.Keys == s.fields.Keys
      && forall d :: d in s.fields ==> r.fields[d] == if d in done then NewVersion(js, d, s.fields[d]) else s.fields[d]
  {
    hide NewVersion;
  }

  lemma KeysNext(s: Json, n: nat)
    requires WellFormed(s) && s.Record? && n < |s.keys|
    ensures var d := s.keys[n];
      d in s.fields && d !in s.keys[..n] && forall e :: e in s.keys[..n + 1] <==> e in s.keys[..n] || e == d
  {
    assert s.keys[n] in s.keys && s.keys[..n + 1] == s.keys[..n] + [s.keys[n]];
  }

  lemma RetargetedNext(s: Json, n: nat, js: seq<Json>)
    requires WellFormed(s) && s.Record? && n < |s.keys|
    ensures var d, before := s.keys[n], RetargetedSome(s, s.keys[..n], js);
            && before.Record? && d in s.fields && d in before.fields && before.fields[d] == s.fields[d]
            && RetargetedSome(s, s.keys[..n + 1], js) == With(before, d, NewVersion(js, d, s.fields[d]))
  {
    hide *;
    var d, done, next := s.keys[n], s.keys[..n], s.keys[..n + 1];
    KeysNext(s, n);
    RetargetedEntries(s, done, js);
    RetargetedEntries(s, next, js);
    SameFields(RetargetedSome(s, next, js), RetargetedSome(s, done, js), d, NewVersion(js, d, s.fields[d]));
  }

  lemma SameFields(r: Json, before: Json, d: string, v: Json)
    requires r.Record? && before.Record? && r.keys == before.keys && d in before.fields
             && r.fields.Keys == before.fields.Keys
    requires forall e :: e in r.fields ==> r.fields[e] == if e == d then v else before.fields[e]
    ensures r == With(before, d, v)
  {
    assert r.fields == before.fields[d := v];
  }

  lemma MismatchesNext(j: Json, section: string, deps: seq<string>, n: nat, js: seq<Json>)
    requires n < |deps|
    ensures Mismatches(j, section, deps[..n + 1], js)
            == Mismatches(j, section, deps[..n], js) + Mismatch(j, section, deps[n], js)
  {
    assert deps[..n + 1][..n] == deps[..n];
  }

  /** The first `n` of the section's dependencies have been dealt with. */
  ghost predicate FixedUpTo(j: Json, cur: Json, section: string, n: nat, js: seq<Json>)
    requires j.Record? && cur.Record? && Field(j, section).Record? && n <= |Field(j, section).keys|
  {
    var s := Field(j, section);
    Apply(cur, Mismatches(j, section, s.keys[..n], js)) == Some(With(cur, section, RetargetedSome(s, s.keys[..n], js)))
  }

  lemma {:induction false} MismatchesFixed(j: Json, cur: Json, section: string, n: nat, js: seq<Json>)
    requires Manifest(j) && NoDotted(j, js) && section in SECTIONS && cur.Record?
    requires Field(cur, section) == Field(j, section) && Field(j, section).Record? && n <= |Field(j, section).keys|
    ensures FixedUpTo(j, cur, section, n, js)
  {
    hide FixedUpTo, Target;
    if n == 0 {
      NoneFixed(j, cur, section, js);
    } else {
      MismatchesFixed(j, cur, section, n - 1, js);
      MismatchesFixedNext(j, cur, section, n - 1, js);
    }
  }

  lemma NoneFixed(j: Json, cur: Json, section: string, js: seq<Json>)
    requires j.Record? && cur.Record? && Field(cur, section) == Field(j, section) && Field(j, section).Record?
    ensures FixedUpTo(j, cur, section, 0, js)
  {
    var s := Field(j, section);
    assert s.keys[..0] == [];
    assert RetargetedSome(s, [], js).fields == s.fields;
    assert cur.fields[section := s] == cur.fields;
  }

  lemma MismatchesFixedNext(j: Json, cur: Json, section: string, n: nat, js: seq<Json>)
    requires Manifest(j) && NoDotted(j, js) && section in SECTIONS && cur.Record? && Field(j, section).Record?
    requires n < |Field(j, section).keys| && FixedUpTo(j, cur, section, n, js)
    ensures FixedUpTo(j, cur, section, n + 1, js)
  {
    var s := Field(j, section);
    assert WellFormed(s);
    hide Mismatches, Mismatch, RetargetedSome, NewVersion, Manifest, NoDotted, WellFormed, Apply;
    var d, before := s.keys[n], RetargetedSome(s, s.keys[..n], js);
    RetargetedNext(s, n, js);
    MismatchesNext(j, section, s.keys, n, js);
    WithAfterWith(cur, section, before, RetargetedSome(s, s.keys[..n + 1], js));
    MismatchFixed(j, With(cur, section, before), section, d, js);
    ApplyConcat(cur, Mismatches(j, section, s.keys[..n], js), Mismatch(j, section, d, js));
  }

  lemma MismatchFixed(j: Json, cur: Json, section: string, d: string, js: seq<Json>)
    requires Manifest(j) && NoDotted(j, js) && section in SECTIONS && Field(j, section).Record?
             && d in Field(j, section).fields
    requires cur.Record? && section in cur.fields && cur.fields[section].Record?
    requires d in cur.fields[section].fields && cur.fields[section].fields[d] == Field(j, section).fields[d]
    ensures Apply(cur, Mismatch(j, section, d, js)) ==
            Some(With(cur, section, With(cur.fields[section], d, NewVersion(js, d, Field(j, section).fields[d]))))
  {
    DepPathParts(section, d);
    var s := cur.fields[section];
    assert s.fields[d := s.fields[d]] == s.fields && cur.fields[section := s] == cur.fields;
    if Plain(d) {
      SetInSection(j, section, d, Undefined);
      if Target(js, d).Some? { SetInSection(cur, section, d, Target(js, d).value); }
    } else {
      DottedNotThere(j, section, d);
    }
    if Target(js, d).Some? { SameAsPlain(Get(j, DepPath(section, d)), Target(js, d).value); }
    var m := Mismatch(j, section, d, js);
    assert !Astray(js, d);
    hide Same, Target;
    if m != [] {
      assert Plain(d);
      assert m == [Fix([section, d], Target(js, d).value)] && m[..0] == [];
      assert Apply(cur, m[..0]) == Some(cur);
    }
  }

  lemma SectionFixed(j: Json, cur: Json, section: string, js: seq<Json>)
    requires Manifest(j) && NoDotted(j, js) && section in SECTIONS && cur.Record?
             && Field(cur, section) == Field(j, section)
    ensures Apply(cur, SectionReports(j, section, js)) == Some(RetargetedSection(cur, section, js))
  {
    var s := Field(j, section);
    if s.Record? {
      MismatchesFixed(j, cur, section, |s.keys|, js);
      assert s.keys[..|s.keys|] == s.keys;
    }
  }

  /** Without dotted names, the fixes succeed and move every use to the version it should have. */
  lemma FixesRetarget(j: Json, js: seq<Json>)
    requires Manifest(j) && NoDotted(j, js)
    ensures Apply(j, Reports(j, js)) == Some(Retargeted(j, js))
  {
    SectionFixed(j, j, SECTIONS[0], js);
    var half := RetargetedSection(j, SECTIONS[0], js);
    assert SECTIONS[0] != SECTIONS[1];
    SectionFixed(j, half, SECTIONS[1], js);
    ApplyConcat(j, SectionReports(j, SECTIONS[0], js), SectionReports(j, SECTIONS[1], js));
  }

  // ---------------------------------------------------------------- the documents afterwards

  lemma RetargetedFields(j: Json, js: seq<Json>)
    requires j.Record?
    ensures var r := Retargeted(j, js);
      && r.Record? && Field(r, "name") == Field(j, "name") && Field(r, "version") == Field(j, "version")
      && forall s ::
           s in SECTIONS ==>
           Field(r, s)
           == if Field(j, s).Record? then RetargetedSome(Field(j, s), Field(j, s).keys, js) else Field(j, s)
  {
    assert SECTIONS[0] != SECTIONS[1] && "name" !in SECTIONS && "version" !in SECTIONS by {
      assert SECTIONS[0] == "dependencies" && SECTIONS[1] == "devDependencies";
      assert |"name"| == 4 && |"version"| == 7 && |"dependencies"| == 12 && |"devDependencies"| == 15;
    }
  }

  ghost predicate Manifests(js: seq<Json>) {
    forall i :: 0 <= i < |js| ==> js[i].Record? && Manifest(js[i])
  }

  lemma RetargetedManifest(j: Json, js: seq<Json>)
    requires Manifests(js) && Manifest(j)
    ensures Manifest(Retargeted(j, js))
  {
    forall d ensures Target(js, d).Some? ==> !Target(js, d).value.Record? { TargetFlat(js, d); }
    RetargetedFields(j, js);
    hide Target;
    SectionManifest(j, SECTIONS[0], js);
    assert SECTIONS[0] != SECTIONS[1];
    SectionManifest(RetargetedSection(j, SECTIONS[0], js), SECTIONS[1], js);
  }

  lemma SectionManifest(j: Json, section: string, js: seq<Json>)
    requires Manifest(j) && section in SECTIONS && forall d :: Target(js, d).Some? ==> !Target(js, d).value.Record?
    ensures Manifest(RetargetedSection(j, section, js))
  {
    var s := Field(j, section);
    if s.Record? {
      assert WellFormed(s) && Section(s) && NamesNoPrototype(s);
      hide Target, Manifest, RetargetedSome;
      RetargetedFlat(s, js);
      SectionReplaced(j, section, RetargetedSome(s, s.keys, js));
    }
  }

  lemma RetargetedFlat(s: Json, js: seq<Json>)
    requires s.Record? && WellFormed(s) && Section(s) && NamesNoPrototype(s)
    requires forall d :: Target(js, d).Some? ==> !Target(js, d).value.Record?
    ensures var r := RetargetedSome(s, s.keys, js);
            r.Record? && WellFormed(r) && Section(r) && NamesNoPrototype(r)
  {
    hide Target;
  }

  lemma SectionReplaced(j: Json, section: string, r: Json)
    requires Manifest(j) && section in SECTIONS && section in j.fields
    requires r.Record? && WellFormed(r) && Section(r) && NamesNoPrototype(r)
    ensures Manifest(With(j, section, r))
  {
    hide Section, NamesNoPrototype;
    assert section != "version" && section != "name" by {
      assert |"version"| == 7 && |"name"| == 4 && |"dependencies"| == 12 && |"devDependencies"| == 15;
    }
    assert WellFormed(With(j, section, r));
  }

  lemma TargetFlat(js: seq<Json>, d: string)
    requires Manifests(js)
    ensures Target(js, d).Some? ==> !Target(js, d).value.Record?
  {
    OurVersionFlat(js, d);
    if Votes(js, d) != [] { WinnerHasMost(Votes(js, d), Undefined); VotesFlat(js, d); }
  }

  lemma {:induction false} OurVersionFlat(js: seq<Json>, d: string)
    requires Manifests(js)
    ensures OurVersion(js, d).Some? ==> !OurVersion(js, d).value.Record?
  {
    if js != [] { OurVersionFlat(js[..|js| - 1], d); }
  }

  lemma {:induction false} VotesFlat(js: seq<Json>, d: string)
    requires Manifests(js)
    ensures forall v :: v in Votes(js, d) ==> !v.Record?
  {
    if js != [] {
      var j := js[|js| - 1];
      VotesFlat(js[..|js| - 1], d);
      assert Manifest(j) && SECTIONS[0] in SECTIONS && SECTIONS[1] in SECTIONS;
      hide Manifest, Manifests, WellFormed, Votes;
      assert forall v ::
               v in VotesOf(j, d) ==>
               v in VotesIn(Field(j, SECTIONS[0]), d) || v in VotesIn(Field(j, SECTIONS[1]), d);
      assert Votes(js, d) == Votes(js[..|js| - 1], d) + VotesOf(j, d) by { VotesLast(js, d); }
      VotesInFlat(j, SECTIONS[0], d);
      VotesInFlat(j, SECTIONS[1], d);
    }
  }

  lemma VotesLast(js: seq<Json>, d: string)
    requires js != []
    ensures Votes(js, d) == Votes(js[..|js| - 1], d) + VotesOf(js[|js| - 1], d)
  {
    hide VotesOf;
  }

  lemma VotesInFlat(j: Json, section: string, d: string)
    requires Manifest(j) && section in SECTIONS
    ensures forall v :: v in VotesIn(Field(j, section), d) ==> !v.Record?
  {
    hide WellFormed;
    assert Section(Field(j, section));
  }
}
