/** Dependencies with a dot in their name, whose fixes go astray: when they throw, and what they leave. */
module DottedNames {
  import opened Options
  import opened JsonValues
  import opened Splitting
  import opened VersionVoting
  import opened VersionFixes
  import opened FixOutcomes

  function Parts(dep: string): (r: seq<string>)
    ensures r != []
  {
    Split(dep, '.')
  }

  // ---------------------------------------------------------------- the fixes of a package

  /** What every reported fix is like: it writes no record, inside some entry of a section. */
  ghost predicate Reported(f: Fix) {
    |f.path| >= 2 && f.path[0] in SECTIONS && Plain(f.path[1]) && !f.expected.Record?
  }

  lemma MismatchOf(j: Json, section: string, dep: string, js: seq<Json>)
    requires Manifests(js) && Manifest(j) && section in SECTIONS && Field(j, section).Record?
    requires dep in Field(j, section).fields
    ensures Mismatch(j, section, dep, js) ==
            if Astray(js, dep) || (Plain(dep) && Target(js, dep) !in {None, Some(Field(j, section).fields[dep])})
            then [Fix([section] + Parts(dep), Target(js, dep).value)] else []
  {
    DepPathParts(section, dep);
    TargetFlat(js, dep);
    if Plain(dep) { SetInSection(j, section, dep, Undefined); } else { DottedNotThere(j, section, dep); }
    if Target(js, dep).Some? { SameAsPlain(Get(j, DepPath(section, dep)), Target(js, dep).value); }
  }

  lemma MismatchReported(j: Json, section: string, dep: string, js: seq<Json>)
    requires Manifests(js) && section in SECTIONS
    ensures forall f ::
              f in Mismatch(j, section, dep, js) ==>
              Reported(f) && f == Fix([section] + Parts(dep), Target(js, dep).value)
  {
    DepPathParts(section, dep);
    PartsPlain(dep, '.', 0);
    TargetFlat(js, dep);
  }

  lemma {:induction false} MismatchesMembers(j: Json, section: string, deps: seq<string>, js: seq<Json>)
    requires Manifests(js) && section in SECTIONS
    ensures forall f ::
              f in Mismatches(j, section, deps, js) <==> exists d :: d in deps && f in Mismatch(j, section, d, js)
    ensures forall f :: f in Mismatches(j, section, deps, js) ==> Reported(f) && f.path[0] == section
  {
    hide Mismatch, Reported;
    if deps != [] {
      MismatchesMembers(j, section, deps[..|deps| - 1], js);
      MismatchReported(j, section, deps[|deps| - 1], js);
      assert deps == deps[..|deps| - 1] + [deps[|deps| - 1]];
    }
  }

  /** `f` is the fix of a dependency of the package. */
  ghost predicate FixOf(j: Json, js: seq<Json>, section: string, dep: string, f: Fix) {
    j.Record? && section in SECTIONS && Field(j, section).Record? && dep in Field(j, section).fields
    && f in Mismatch(j, section, dep, js)
  }

  lemma SectionMembers(j: Json, section: string, js: seq<Json>)
    requires Manifests(js) && Manifest(j) && section in SECTIONS
    ensures forall f :: f in SectionReports(j, section, js) <==> exists d :: FixOf(j, js, section, d, f)
    ensures forall f :: f in SectionReports(j, section, js) ==> Reported(f)
  {
    hide Mismatch, Reported, Mismatches;
    if Field(j, section).Record? {
      MismatchesMembers(j, section, Field(j, section).keys, js);
      assert WellFormed(Field(j, section));
      forall f | f in SectionReports(j, section, js) ensures exists d :: FixOf(j, js, section, d, f) {
        var d :| d in Field(j, section).keys && f in Mismatch(j, section, d, js);
        assert FixOf(j, js, section, d, f);
      }
    }
  }

  lemma ReportsMembers(j: Json, js: seq<Json>)
    requires Manifests(js) && Manifest(j)
    ensures forall f :: f in Reports(j, js) <==> exists s, d :: FixOf(j, js, s, d, f)
    ensures forall f :: f in Reports(j, js) ==> Reported(f)
    ensures Writes(Reports(j, js))
  {
    SectionMembers(j, SECTIONS[0], js);
    SectionMembers(j, SECTIONS[1], js);
    hide FixOf, SectionReports;
    assert SECTIONS[0] in SECTIONS && SECTIONS[1] in SECTIONS;
    forall s, d, f | FixOf(j, js, s, d, f)
      ensures f in Reports(j, js)
    {
      assert s in SECTIONS by { FixOfSection(j, js, s, d, f); }
    }
  }

  lemma FixOfSection(j: Json, js: seq<Json>, section: string, dep: string, f: Fix)
    requires FixOf(j, js, section, dep, f)
    ensures section in SECTIONS
  {
  }

  // ---------------------------------------------------------------- when a fix throws

  /** No astray dependency of the section would be written beyond a plain entry, beyond the value of
      an astray one before it, or beyond an inherited name. */
  ghost predicate FixableSection(s: Json, js: seq<Json>)
    requires s.Record?
  {
    forall k :: 0 <= k < |s.keys| && Astray(js, s.keys[k]) ==> FixableEntry(s, js, k)
  }

  ghost predicate FixableEntry(s: Json, js: seq<Json>, k: nat)
    requires s.Record? && k < |s.keys|
  {
    && Parts(s.keys[k])[0] !in s.fields && Makeable(Parts(s.keys[k]))
    && forall l :: 0 <= l < k && Astray(js, s.keys[l]) ==> !(Parts(s.keys[l]) < Parts(s.keys[k]))
  }

  ghost predicate Fixable(j: Json, js: seq<Json>)
    requires j.Record?
  {
    forall s :: s in SECTIONS && Field(j, s).Record? ==> FixableSection(Field(j, s), js)
  }

  /** The fixes `m`, none of which is on the way of another, can be made after those `before`. */
  ghost predicate Go(j: Json, before: seq<Fix>, m: seq<Fix>) {
    forall f :: f in m ==> Settable(j, f.path) && !Blocks(before, f.path)
  }

  ghost predicate Goes(j: Json, section: string, k: nat, js: seq<Json>)
    requires j.Record? && Field(j, section).Record? && k < |Field(j, section).keys|
  {
    var keys := Field(j, section).keys;
    Go(j, Mismatches(j, section, keys[..k], js), Mismatch(j, section, keys[k], js))
  }

  ghost predicate AllGo(j: Json, section: string, n: nat, js: seq<Json>)
    requires j.Record? && Field(j, section).Record? && n <= |Field(j, section).keys|
  {
    forall k :: 0 <= k < n ==> Goes(j, section, k, js)
  }

  lemma AllGoNext(j: Json, section: string, n: nat, js: seq<Json>)
    requires j.Record? && Field(j, section).Record? && n < |Field(j, section).keys|
    ensures AllGo(j, section, 0, js)
    ensures AllGo(j, section, n + 1, js) <==> AllGo(j, section, n, js) && Goes(j, section, n, js)
  {
    hide Goes;
  }

  /** In the section, the same paths can be written in both documents. */
  ghost predicate AsWritable(j: Json, cur: Json, section: string) {
    forall p :: p != [] && p[0] == section ==> (Settable(cur, p) <==> Settable(j, p))
  }

  /** One fix more, or none. */
  lemma OneFixGoes(cur: Json, before: seq<Fix>, m: seq<Fix>)
    requires cur.Record? && Writes(before) && |m| <= 1 && forall f :: f in m ==> f.path != []
    ensures Apply(cur, before + m).Some? <==>
            Apply(cur, before).Some? && Go(cur, before, m)
  {
    hide Settable, Set, Writes, Blocks, Apply;
    if m == [] {
      assert before + m == before;
    } else {
      assert m == [m[0]];
      ApplyOneMore(cur, before, m[0]);
      if Apply(cur, before).Some? { SettableAfterFixes(cur, before, m[0].path); }
      assert Go(cur, before, m) <==> Settable(cur, m[0].path) && !Blocks(before, m[0].path);
    }
  }

  lemma {:induction false} MismatchesGo(j: Json, cur: Json, section: string, n: nat, js: seq<Json>)
    requires Manifests(js) && Manifest(j) && section in SECTIONS && Field(j, section).Record?
             && n <= |Field(j, section).keys|
    requires cur.Record? && AsWritable(j, cur, section)
    ensures Apply(cur, Mismatches(j, section, Field(j, section).keys[..n], js)).Some?
            <==> AllGo(j, section, n, js)
  {
    var keys := Field(j, section).keys;
    hide *;
    if n > 0 {
      MismatchesGo(j, cur, section, n - 1, js);
      MismatchesNext(j, section, keys, n - 1, js);
      GoesNext(j, cur, section, n - 1, js);
      AllGoNext(j, section, n - 1, js);
      OneFixGoes(cur, Mismatches(j, section, keys[..n - 1], js), Mismatch(j, section, keys[n - 1], js));
    } else {
      NothingToGo(j, cur, section, js);
    }
  }

  lemma NothingToGo(j: Json, cur: Json, section: string, js: seq<Json>)
    requires j.Record? && Field(j, section).Record?
    ensures Apply(cur, Mismatches(j, section, Field(j, section).keys[..0], js)) == Some(cur) && AllGo(j, section, 0, js)
  {
    assert Field(j, section).keys[..0] == [];
  }

  lemma GoesNext(j: Json, cur: Json, section: string, n: nat, js: seq<Json>)
    requires Manifests(js) && Manifest(j) && section in SECTIONS && Field(j, section).Record?
             && n < |Field(j, section).keys|
    requires AsWritable(j, cur, section)
    ensures var keys := Field(j, section).keys;
            var before, m := Mismatches(j, section, keys[..n], js), Mismatch(j, section, keys[n], js);
      && Writes(before) && |m| <= 1 && (forall f :: f in m ==> f.path != [])
      && (Goes(j, section, n, js) <==> Go(cur, before, m))
  {
    var keys := Field(j, section).keys;
    MismatchesMembers(j, section, keys[..n], js);
    MismatchReported(j, section, keys[n], js);
    MismatchOne(j, section, keys[n], js);
    hide Mismatch, Mismatches, Manifests, Manifest, Settable, Blocks;
  }

  lemma MismatchOne(j: Json, section: string, dep: string, js: seq<Json>)
    ensures |Mismatch(j, section, dep, js)| <= 1
  {
  }

  lemma SectionWritable(j: Json, section: string, dep: string)
    requires Manifest(j) && section in SECTIONS && Field(j, section).Record?
    ensures Plain(dep) ==> [section] + Parts(dep) == [section, dep] && Settable(j, [section] + Parts(dep))
    ensures !Plain(dep) ==> |Parts(dep)| > 1
    ensures !Plain(dep) ==> (Settable(j, [section] + Parts(dep)) <==>
                               Parts(dep)[0] !in Field(j, section).fields && Makeable(Parts(dep)))
  {
    var s, p := Field(j, section), Parts(dep);
    SplitPlain(dep, '.');
    assert ([section] + p)[1..] == p;
    assert Settable(j, [section] + p) <==> Settable(s, p);
    hide IsInherited;
    if !Plain(dep) {
      if p[0] in s.fields { assert !s.fields[p[0]].Record? && !Settable(s.fields[p[0]], p[1..]); }
      else {
        assert Settable(s, p) <==> Settable(EMPTY, p);
        EmptySettable(p);
      }
    }
  }

  lemma {:induction false} GoesIff(j: Json, section: string, k: nat, js: seq<Json>)
    requires Manifests(js) && Manifest(j) && section in SECTIONS && Field(j, section).Record?
             && k < |Field(j, section).keys|
    ensures Goes(j, section, k, js)
            <==> (Astray(js, Field(j, section).keys[k]) ==> FixableEntry(Field(j, section), js, k))
  {
    var s := Field(j, section);
    var d := s.keys[k];
    var before, path := Mismatches(j, section, s.keys[..k], js), [section] + Parts(d);
    assert WellFormed(s) && d in s.fields;
    MismatchOf(j, section, d, js);
    SectionWritable(j, section, d);
    MismatchesMembers(j, section, s.keys[..k], js);
    var m := Mismatch(j, section, d, js);
    hide Target, Mismatch, Mismatches, Parts, Settable, Manifest, Manifests, WellFormed;
    if m != [] {
      assert Goes(j, section, k, js) <==> Settable(j, path) && !Blocks(before, path) by {
        assert m == [m[0]] && m[0].path == path;
      }
      if Astray(js, d) && Settable(j, path) {
        BlockedBy(j, section, k, js);
      }
      assert Plain(d) ==> !Blocks(before, path) by { assert forall f :: f in before ==> Reported(f); }
    }
  }

  /** The fix of an entry is on the way to `parts` if it is astray and taken to be there. */
  lemma BlockerAt(j: Json, section: string, l: nat, parts: seq<string>, js: seq<Json>)
    requires Manifests(js) && Manifest(j) && section in SECTIONS && Field(j, section).Record?
             && l < |Field(j, section).keys|
    requires parts != [] && parts[0] !in Field(j, section).fields
    ensures var d := Field(j, section).keys[l];
            (exists f :: f in Mismatch(j, section, d, js) && f.path < [section] + parts)
            <==> Astray(js, d) && Parts(d) < parts
  {
    var s := Field(j, section);
    var d := s.keys[l];
    assert WellFormed(s) && d in s.keys;
    MismatchOf(j, section, d, js);
    SectionWritable(j, section, d);
    PrefixBehind(section, Parts(d), parts);
    hide Mismatch, Astray, Parts, Manifest, Manifests, WellFormed, Target, Settable;
    var m := Mismatch(j, section, d, js);
    if m != [] { assert m == [m[0]] && m[0] in m; }
  }

  lemma BlockedBy(j: Json, section: string, k: nat, js: seq<Json>)
    requires Manifests(js) && Manifest(j) && section in SECTIONS && Field(j, section).Record?
             && k < |Field(j, section).keys|
    requires Parts(Field(j, section).keys[k])[0] !in Field(j, section).fields
    ensures var s := Field(j, section);
            Blocks(Mismatches(j, section, s.keys[..k], js), [section] + Parts(s.keys[k]))
            <==> exists l :: 0 <= l < k && Astray(js, s.keys[l]) && Parts(s.keys[l]) < Parts(s.keys[k])
  {
    var s := Field(j, section);
    var before, parts := Mismatches(j, section, s.keys[..k], js), Parts(s.keys[k]);
    MismatchesMembers(j, section, s.keys[..k], js);
    hide Mismatch, Mismatches, Astray, Parts, Manifest, Manifests;
    forall l | 0 <= l < k
      ensures (exists f :: f in Mismatch(j, section, s.keys[l], js) && f.path < [section] + parts)
              <==> Astray(js, s.keys[l]) && Parts(s.keys[l]) < parts
    {
      BlockerAt(j, section, l, parts, js);
    }
    if f :| f in before && f.path < [section] + parts {
      var d :| d in s.keys[..k] && f in Mismatch(j, section, d, js);
      var l :| 0 <= l < k && s.keys[l] == d;
    }
    if l :| 0 <= l < k && Astray(js, s.keys[l]) && Parts(s.keys[l]) < parts {
      var f :| f in Mismatch(j, section, s.keys[l], js) && f.path < [section] + parts;
      assert s.keys[l] in s.keys[..k] && f in before;
    }
  }

  lemma PrefixBehind(section: string, a: seq<string>, b: seq<string>)
    ensures [section] + a < [section] + b <==> a < b
    ensures a != [] && a < b ==> b != [] && b[0] == a[0]
  {
    assert ([section] + a)[1..] == a && ([section] + b)[1..] == b;
  }

  lemma SectionGoes(j: Json, section: string, js: seq<Json>)
    requires Manifests(js) && Manifest(j) && section in SECTIONS && Field(j, section).Record?
    ensures AllGo(j, section, |Field(j, section).keys|, js) <==> FixableSection(Field(j, section), js)
  {
    forall k | 0 <= k < |Field(j, section).keys|
      ensures Goes(j, section, k, js)
              <==> (Astray(js, Field(j, section).keys[k]) ==> FixableEntry(Field(j, section), js, k))
    {
      GoesIff(j, section, k, js);
    }
    hide Goes, Astray, FixableEntry;
  }

  /** The fixes of one section. */
  lemma SectionReportsGo(j: Json, cur: Json, section: string, js: seq<Json>)
    requires Manifests(js) && Manifest(j) && section in SECTIONS
    requires cur.Record? && AsWritable(j, cur, section)
    ensures Apply(cur, SectionReports(j, section, js)).Some?
            <==> (Field(j, section).Record? ==> FixableSection(Field(j, section), js))
  {
    var s := Field(j, section);
    if s.Record? {
      assert s.keys[..|s.keys|] == s.keys;
      MismatchesGo(j, cur, section, |s.keys|, js);
      SectionGoes(j, section, js);
    }
  }

  lemma OtherSectionWritable(j: Json, section: string, other: string, js: seq<Json>)
    requires Manifests(js) && Manifest(j) && section in SECTIONS && other in SECTIONS && section != other
    requires Apply(j, SectionReports(j, section, js)).Some?
    ensures var cur := Apply(j, SectionReports(j, section, js)).value; cur.Record? && AsWritable(j, cur, other)
  {
    var fixes := SectionReports(j, section, js);
    assert Writes(fixes) && forall f :: f in fixes ==> f.path != [] && f.path[0] == section by {
      if Field(j, section).Record? { MismatchesMembers(j, section, Field(j, section).keys, js); }
    }
    hide SectionReports, Apply, Settable;
    SettableAfterFixes(j, fixes, [other]);
    forall p | p != [] && p[0] == other ensures Settable(Apply(j, fixes).value, p) <==> Settable(j, p) {
      SettableAfterFixes(j, fixes, p);
      assert !Blocks(fixes, p);
    }
  }

  /** The fixes of a package all succeed if and only if none of them would be written beyond a
      plain entry, beyond what an earlier one has written, or beyond an inherited name. */
  lemma FixesSucceedIff(j: Json, js: seq<Json>)
    requires Manifests(js) && Manifest(j)
    ensures Apply(j, Reports(j, js)).Some? <==> Fixable(j, js)
  {
    assert SECTIONS[0] != SECTIONS[1] && SECTIONS[0] in SECTIONS && SECTIONS[1] in SECTIONS;
    var first, second := SectionReports(j, SECTIONS[0], js), SectionReports(j, SECTIONS[1], js);
    ApplyConcat(j, first, second);
    hide FixableSection, SectionReports, Apply, Manifest, Manifests;
    SectionReportsGo(j, j, SECTIONS[0], js) by { assert j.Record? by { ManifestRecord(j); } }
    if Apply(j, first).Some? {
      OtherSectionWritable(j, SECTIONS[0], SECTIONS[1], js);
      SectionReportsGo(j, Apply(j, first).value, SECTIONS[1], js);
    }
    assert Fixable(j, js) <==>
      && (Field(j, SECTIONS[0]).Record? ==> FixableSection(Field(j, SECTIONS[0]), js))
      && (Field(j, SECTIONS[1]).Record? ==> FixableSection(Field(j, SECTIONS[1]), js));
  }

  lemma ManifestRecord(j: Json)
    requires Manifest(j)
    ensures j.Record?
  {
  }

  // ---------------------------------------------------------------- a dotted entry is never written

  /** The fixes never change the version of a dependency with a dot in its name. */
  lemma {:induction false} DottedEntryKept(j: Json, fixes: seq<Fix>, section: string, dep: string)
    requires !Plain(dep) && (forall f :: f in fixes ==> Reported(f)) && Apply(j, fixes).Some?
    ensures Get(Apply(j, fixes).value, [section, dep]) == Get(j, [section, dep])
    decreases |fixes|
  {
    if fixes != [] {
      var init, f := fixes[..|fixes| - 1], fixes[|fixes| - 1];
      DottedEntryKept(j, init, section, dep);
      assert Reported(f);
      GetElsewhere(Apply(j, init).value, f.path, f.expected, [section, dep]);
    }
  }
}
