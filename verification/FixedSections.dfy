/** What the fixes of a package make of each entry of its dependency sections. */
module FixedSections {
  import opened Options
  import opened JsonValues
  import opened Splitting
  import opened VersionVoting
  import opened VersionFixes
  import opened FixOutcomes
  import opened DottedNames

  /** An astray dependency of the section is taken for an entry `a` that is to hold a record. */
  ghost predicate StrayHead(s: Json, js: seq<Json>, a: string) {
    s.Record? && exists d :: d in s.fields && Astray(js, d) && Parts(d)[0] == a
  }

  /** What the fixes of astray dependencies make of the entry `a`, which is not there before. */
  ghost function Stray(j: Json, section: string, a: string, js: seq<Json>): Json
    requires j.Record?
  {
    var made := Apply(EMPTY, Under(Reports(j, js), [section, a]));
    if made.Some? then made.value else EMPTY
  }

  /** An astray dependency is written on the way to where `d` is taken to be. */
  ghost predicate Covered(s: Json, js: seq<Json>, d: string) {
    s.Record? && exists e :: e in s.fields && Astray(js, e) && Parts(e) < Parts(d)
  }

  /** An astray dependency is written beyond where `d` is taken to be. */
  ghost predicate Beyond(s: Json, js: seq<Json>, d: string) {
    s.Record? && exists e :: e in s.fields && Astray(js, e) && Parts(d) < Parts(e)
  }

  // ---------------------------------------------------------------- where fixes come from

  /** The fixes of a package that succeed, making `r` of it. */
  ghost predicate Round(j: Json, r: Json, js: seq<Json>) {
    Manifests(js) && Manifest(j) && j.Record? && Apply(j, Reports(j, js)) == Some(r)
  }

  /** The fix `f` is that of the dependency `d` of the section. */
  ghost predicate From(j: Json, js: seq<Json>, section: string, d: string, f: Fix) {
    && j.Record? && section in SECTIONS && Field(j, section).Record? && d in Field(j, section).fields
    && f == Fix([section] + Parts(d), if Target(js, d).Some? then Target(js, d).value else Undefined)
    && (Astray(js, d) || (Plain(d) && Target(js, d) !in {None, Some(Field(j, section).fields[d])}))
  }

  lemma FixesFrom(j: Json, js: seq<Json>)
    requires Manifests(js) && Manifest(j)
    ensures forall f :: f in Reports(j, js) <==> exists s, d :: From(j, js, s, d, f)
  {
    ReportsMembers(j, js);
    forall s, d, f ensures FixOf(j, js, s, d, f) <==> From(j, js, s, d, f) {
      if FixOf(j, js, s, d, f) || From(j, js, s, d, f) { MismatchOf(j, s, d, js); }
    }
    hide FixOf, From, Reports, Manifest, Manifests;
    forall f | f in Reports(j, js) ensures exists s, d :: From(j, js, s, d, f) {
      var s, d :| FixOf(j, js, s, d, f);
      assert From(j, js, s, d, f);
    }
    forall s, d, f | From(j, js, s, d, f) ensures f in Reports(j, js) { assert FixOf(j, js, s, d, f); }
  }

  lemma FixesOf(j: Json, r: Json, js: seq<Json>, f: Fix) returns (section: string, d: string)
    requires Round(j, r, js) && f in Reports(j, js)
    ensures From(j, js, section, d, f) && Reported(f) && (Astray(js, d) ==> Parts(d)[0] !in Field(j, section).fields)
  {
    ReportsMembers(j, js);
    FixesFrom(j, js);
    section, d :| From(j, js, section, d, f);
    if Astray(js, d) { AstrayHeadFree(j, r, js, section, d); }
  }

  lemma FixIn(j: Json, r: Json, js: seq<Json>, section: string, d: string, f: Fix)
    requires Round(j, r, js) && From(j, js, section, d, f)
    ensures f in Reports(j, js)
  {
    FixesFrom(j, js);
    hide *;
  }

  lemma AstrayHeadFree(j: Json, r: Json, js: seq<Json>, section: string, d: string)
    requires Round(j, r, js) && section in SECTIONS && Field(j, section).Record? && d in Field(j, section).fields
             && Astray(js, d)
    ensures Parts(d)[0] !in Field(j, section).fields && Plain(Parts(d)[0]) && |Parts(d)| > 1
  {
    FixesSucceedIff(j, js);
    var s := Field(j, section);
    assert WellFormed(s) && FixableSection(s, js);
    var k :| 0 <= k < |s.keys| && s.keys[k] == d;
    assert FixableEntry(s, js, k);
    PartsPlain(d, '.', 0);
    SplitPlain(d, '.');
  }

  lemma PlainParts(d: string)
    ensures Plain(d) ==> Parts(d) == [d]
    ensures !Plain(d) ==> |Parts(d)| > 1
    ensures Plain(Parts(d)[0])
  {
    SplitPlain(d, '.');
    PartsPlain(d, '.', 0);
  }

  lemma SamePath(section: string, d: string, section': string, e: string)
    requires [section] + Parts(d) == [section'] + Parts(e)
    ensures section == section' && d == e
  {
    assert ([section] + Parts(d))[0] == section && ([section] + Parts(d))[1..] == Parts(d);
    assert ([section'] + Parts(e))[0] == section' && ([section'] + Parts(e))[1..] == Parts(e);
    SplitInjective(d, e, '.');
  }

  lemma GetField(j: Json, k: string)
    requires j.Record?
    ensures Get(j, [k]) == Field(j, k)
  {
  }

  lemma GetEntry(j: Json, section: string, d: string)
    requires j.Record? && Field(j, section).Record?
    ensures Get(j, [section, d]) == Field(Field(j, section), d)
  {
    assert [section, d][1..] == [d];
    GetField(Field(j, section), d);
  }

  // ---------------------------------------------------------------- the other fields

  /** Fields that are no dependency sections are left alone. */
  lemma OtherFieldKept(j: Json, r: Json, js: seq<Json>, k: string)
    requires Round(j, r, js) && k !in SECTIONS
    ensures r.Record? && Field(r, k) == Field(j, k)
  {
    var fixes := Reports(j, js);
    ReportsMembers(j, js);
    SettableAfterFixes(j, fixes, [k]);
    assert forall f :: f in fixes ==> Reported(f);
    hide Reports, Apply, Manifest, Manifests;
    forall f | f in fixes ensures !([k] <= f.path) { assert Reported(f); }
    UnderEmpty(fixes, [k]);
    GetUnfixed(j, fixes, [k]);
    assert !Blocks(fixes, [k]);
    GetField(j, k);
    GetField(r, k);
  }

  // ---------------------------------------------------------------- the fields of a section

  lemma SectionKeys(j: Json, r: Json, js: seq<Json>, section: string)
    requires Round(j, r, js) && section in SECTIONS && r.Record?
    ensures var s, t := Field(j, section), Field(r, section);
      if s.Record?
        then t.Record? && WellFormed(t) && forall d :: d in t.fields <==> d in s.fields || StrayHead(s, js, d)
      else t == s
  {
    var fixes, s, t := Reports(j, js), Field(j, section), Field(r, section);
    ReportsMembers(j, js);
    assert WellFormed(s) && j.Record? && Apply(j, fixes) == Some(r);
    assert forall f :: f in fixes ==> Reported(f);
    hide Reports, Apply, Manifest, Manifests, WellFormed;
    var under := Under(fixes, [section]);
    GetUnfixed(j, fixes, [section]);
    assert !Blocks(fixes, [section]);
    GetField(j, section);
    GetField(r, section);
    UnderWrites(fixes, [section]);
    UnderHeads(j, r, js, section);
    if under == [] {
      assert t == s;
    } else {
      assert s.Record? && RecordAt(j, [section]) == s;
      FieldsAfterFixes(s, under);
    }
  }

  /** What the fixes within a section start with: entries that are there, and stray heads. */
  lemma UnderHeads(j: Json, r: Json, js: seq<Json>, section: string)
    requires Round(j, r, js) && section in SECTIONS
    ensures var s, under := Field(j, section), Under(Reports(j, js), [section]);
      && (under != [] ==> s.Record?)
      && (forall g ::
          g in under ==> g.path != [] && s.Record? && (g.path[0] in s.fields || StrayHead(s, js, g.path[0])))
      && forall a :: StrayHead(s, js, a) ==> exists g :: g in under && g.path[0] == a
  {
    var fixes, s := Reports(j, js), Field(j, section);
    var under := Under(fixes, [section]);
    ReportsMembers(j, js);
    UnderWrites(fixes, [section]);
    hide Reports, Under, Apply, Manifest, Manifests, Target, Parts;
    forall g | g in under
      ensures g.path != [] && s.Record? && (g.path[0] in s.fields || StrayHead(s, js, g.path[0]))
    {
      var f :| f in fixes && [section] < f.path && g == Fix(f.path[|[section]|..], f.expected);
      var s', d := FixesOf(j, r, js, f);
      assert f.path == [s'] + Parts(d) && s' == section && g.path == Parts(d);
      PlainParts(d);
    }
    if under != [] { assert under[0] in under; }
    forall a | StrayHead(s, js, a) ensures exists g :: g in under && g.path[0] == a {
      var d :| d in s.fields && Astray(js, d) && Parts(d)[0] == a;
      var f := Fix([section] + Parts(d), Target(js, d).value);
      assert From(j, js, section, d, f);
      FixIn(j, r, js, section, d, f);
      assert [section] < f.path && f.path[|[section]|..] == Parts(d);
      assert Fix(Parts(d), f.expected) in under;
    }
  }

  // ---------------------------------------------------------------- entries

  /** No fix goes beyond an entry that is there. */
  lemma NothingUnderEntry(j: Json, r: Json, js: seq<Json>, section: string, d: string)
    requires Round(j, r, js) && section in SECTIONS && Field(j, section).Record? && d in Field(j, section).fields
    ensures Under(Reports(j, js), [section, d]) == [] && !Blocks(Reports(j, js), [section, d])
  {
    var fixes, q := Reports(j, js), [section, d];
    ReportsMembers(j, js);
    assert forall f :: f in fixes ==> Reported(f);
    hide Reports, Apply, Manifest, Manifests, Target, Parts;
    forall f | f in fixes ensures !(q < f.path) {
      var s', e := FixesOf(j, r, js, f);
      PlainParts(e);
    }
    UnderEmpty(fixes, q);
  }

  /** Only the dependency itself is fixed at its own entry. */
  lemma FixAtEntry(j: Json, r: Json, js: seq<Json>, section: string, d: string, f: Fix)
    requires Round(j, r, js) && f in Reports(j, js) && f.path == [section, d]
    ensures Plain(d) && From(j, js, section, d, f) && !Astray(js, d)
  {
    var s', e := FixesOf(j, r, js, f);
    hide Reports, Apply, Manifest, Manifests, Target, Parts;
    assert Plain(d) by { assert f.path[1] == d; }
    PlainParts(d);
    assert f.path == [section] + Parts(d);
    SamePath(section, d, s', e);
  }

  lemma EntryAfter(j: Json, r: Json, js: seq<Json>, section: string, d: string)
    requires Round(j, r, js) && section in SECTIONS && Field(j, section).Record? && d in Field(j, section).fields
    ensures Get(r, [section, d]) == NewVersion(js, d, Field(j, section).fields[d])
  {
    var fixes, q, s := Reports(j, js), [section, d], Field(j, section);
    ReportsMembers(j, js);
    NothingUnderEntry(j, r, js, section, d);
    GetEntry(j, section, d);
    PlainParts(d);
    assert j.Record? && Apply(j, fixes) == Some(r);
    hide Reports, Apply, Manifest, Manifests, Target, Parts, Blocks, Under;
    if Plain(d) && Target(js, d) !in {None, Some(s.fields[d])} {
      var f := Fix([section] + Parts(d), Target(js, d).value);
      assert From(j, js, section, d, f);
      FixIn(j, r, js, section, d, f);
      forall g | g in fixes && g.path == q ensures g == f { FixAtEntry(j, r, js, section, d, g); }
      GetFixed(j, fixes, q, f.expected);
    } else {
      forall f | f in fixes ensures f.path != q {
        if f.path == q { FixAtEntry(j, r, js, section, d, f); }
      }
      GetUnfixed(j, fixes, q);
    }
  }

  lemma NotAnEntry(j: Json, r: Json, js: seq<Json>, section: string, a: string, f: Fix)
    requires Round(j, r, js) && section in SECTIONS && Field(j, section).Record? && a !in Field(j, section).fields
    requires f in Reports(j, js)
    ensures f.path != [section, a]
  {
    var s', e := FixesOf(j, r, js, f);
    PlainParts(e);
  }

  lemma AstrayFix(j: Json, r: Json, js: seq<Json>, section: string, d: string) returns (f: Fix)
    requires Round(j, r, js) && section in SECTIONS && Field(j, section).Record?
    requires d in Field(j, section).fields && Astray(js, d)
    ensures f in Reports(j, js) && f.path == [section] + Parts(d) && f.expected == Target(js, d).value
  {
    f := Fix([section] + Parts(d), Target(js, d).value);
    assert From(j, js, section, d, f);
    FixIn(j, r, js, section, d, f);
  }

  lemma StrayAfter(j: Json, r: Json, js: seq<Json>, section: string, a: string)
    requires Round(j, r, js) && section in SECTIONS && StrayHead(Field(j, section), js, a)
    ensures a !in Field(j, section).fields && Plain(a)
    ensures Get(r, [section, a]) == Stray(j, section, a, js) && Stray(j, section, a, js).Record?
  {
    var fixes, q := Reports(j, js), [section, a];
    assert j.Record? && Apply(j, fixes) == Some(r) && Field(j, section).Record?;
    assert Manifests(js) && Manifest(j);
    hide *;
    ReportsMembers(j, js);
    StrayUnder(j, r, js, section, a);
    GetEntry(j, section, a);
    GetUnfixed(j, fixes, q);
    UnderEmptyWrites(fixes, q);
    NothingHere(j, section, a, q);
    SettableAfterFixes(EMPTY, Under(fixes, q), q);
    StrayIs(j, section, a, js);
  }

  /** Some fix goes beyond a stray head, and none ends there or before. */
  lemma StrayUnder(j: Json, r: Json, js: seq<Json>, section: string, a: string)
    requires Round(j, r, js) && section in SECTIONS && StrayHead(Field(j, section), js, a)
    ensures a !in Field(j, section).fields && Plain(a)
    ensures var fixes, q := Reports(j, js), [section, a];
      && Under(fixes, q) != [] && !Blocks(fixes, q) && forall f :: f in fixes ==> f.path != q
  {
    var fixes, q := Reports(j, js), [section, a];
    assert j.Record? && Field(j, section).Record? && Manifests(js) && Manifest(j);
    hide *;
    ReportsMembers(j, js);
    var f := FixBeyond(j, r, js, section, a);
    NoneBlocks(fixes, section, a);
    forall g | g in fixes ensures g.path != q { NotAnEntry(j, r, js, section, a, g); }
    UnderEmpty(fixes, q);
  }

  lemma FixBeyond(j: Json, r: Json, js: seq<Json>, section: string, a: string) returns (f: Fix)
    requires Round(j, r, js) && section in SECTIONS && StrayHead(Field(j, section), js, a)
    ensures a !in Field(j, section).fields && Plain(a) && f in Reports(j, js) && [section, a] < f.path
  {
    assert j.Record? && Field(j, section).Record?;
    hide *;
    var d := StrayFrom(Field(j, section), js, a);
    AstrayHeadFree(j, r, js, section, d);
    f := AstrayFix(j, r, js, section, d);
    PathBeyond(section, Parts(d), a);
  }

  lemma StrayFrom(s: Json, js: seq<Json>, a: string) returns (d: string)
    requires StrayHead(s, js, a)
    ensures d in s.fields && Astray(js, d) && Parts(d)[0] == a
  {
    hide Astray, Parts;
    d :| d in s.fields && Astray(js, d) && Parts(d)[0] == a;
  }

  lemma PathBeyond(section: string, parts: seq<string>, a: string)
    requires |parts| > 1 && parts[0] == a
    ensures [section, a] < [section] + parts
  {
    assert parts == [a] + parts[1..];
    assert [section] + parts == [section, a] + parts[1..];
  }

  lemma NoneBlocks(fixes: seq<Fix>, section: string, a: string)
    requires forall f :: f in fixes ==> Reported(f)
    ensures !Blocks(fixes, [section, a])
  {
  }

  lemma UnderEmptyWrites(fixes: seq<Fix>, q: seq<string>)
    requires Writes(fixes)
    ensures Writes(Under(fixes, q))
  {
    UnderWrites(fixes, q);
    hide Writes, Under;
  }

  lemma NothingHere(j: Json, section: string, a: string, q: seq<string>)
    requires j.Record? && Field(j, section).Record? && a !in Field(j, section).fields && q == [section, a]
    requires Get(j, q) == Field(Field(j, section), a)
    ensures RecordAt(j, q) == EMPTY && EMPTY.Record?
  {
    hide Get;
  }

  lemma StrayIs(j: Json, section: string, a: string, js: seq<Json>)
    requires j.Record? && Apply(EMPTY, Under(Reports(j, js), [section, a])).Some?
    ensures Stray(j, section, a, js) == Apply(EMPTY, Under(Reports(j, js), [section, a])).value
  {
    hide Apply, Under, Reports;
  }

  /** A fix for a name with a dot that does not throw leaves a document that is no manifest. */
  lemma DottedSpoilsAt(j: Json, js: seq<Json>, section: string, dep: string)
    requires Manifests(js) && Manifest(j) && section in SECTIONS && Field(j, section).Record?
    requires dep in Field(j, section).fields && Astray(js, dep) && Apply(j, Reports(j, js)).Some?
    ensures !Manifest(Apply(j, Reports(j, js)).value)
  {
    var r, a := Apply(j, Reports(j, js)).value, Parts(dep)[0];
    assert Round(j, r, js) && StrayHead(Field(j, section), js, a);
    hide *;
    StrayAfter(j, r, js, section, a);
    RecordSpoils(r, section, a);
  }

  lemma RecordSpoils(j: Json, section: string, a: string)
    requires section in SECTIONS && Get(j, [section, a]).Record?
    ensures !Manifest(j)
  {
    if j.Record? {
      assert [section, a][1..] == [a];
      if Field(j, section).Record? { GetEntry(j, section, a); }
    }
  }

  // ---------------------------------------------------------------- where dotted names are taken to be

  lemma CoveredIff(j: Json, r: Json, js: seq<Json>, section: string, d: string)
    requires Round(j, r, js) && section in SECTIONS && Field(j, section).Record? && !Plain(d)
    requires Parts(d)[0] !in Field(j, section).fields
    ensures Blocks(Reports(j, js), [section] + Parts(d)) <==> Covered(Field(j, section), js, d)
  {
    var fixes, q, s := Reports(j, js), [section] + Parts(d), Field(j, section);
    hide Reports, Apply, Manifest, Manifests, Target, Parts;
    if f :| f in fixes && f.path < q {
      var s', e := FixesOf(j, r, js, f);
      assert s' == section by { assert f.path[0] == q[0]; }
      PrefixBehind(section, Parts(e), Parts(d));
      PlainParts(e);
    }
    if e :| e in s.fields && Astray(js, e) && Parts(e) < Parts(d) {
      var f := Fix([section] + Parts(e), Target(js, e).value);
      assert From(j, js, section, e, f);
      FixIn(j, r, js, section, e, f);
      PrefixBehind(section, Parts(e), Parts(d));
    }
  }

  lemma BeyondIff(j: Json, r: Json, js: seq<Json>, section: string, d: string)
    requires Round(j, r, js) && section in SECTIONS && Field(j, section).Record? && !Plain(d)
    ensures Under(Reports(j, js), [section] + Parts(d)) != [] <==> Beyond(Field(j, section), js, d)
    ensures Writes(Under(Reports(j, js), [section] + Parts(d)))
  {
    var fixes, q, s := Reports(j, js), [section] + Parts(d), Field(j, section);
    ReportsMembers(j, js);
    UnderWrites(fixes, q);
    UnderEmpty(fixes, q);
    PlainParts(d);
    hide Reports, Apply, Manifest, Manifests, Target, Parts, Under, Writes, Reported;
    if f :| f in fixes && q < f.path {
      var s', e := FixesOf(j, r, js, f);
      assert s' == section by { assert f.path[0] == q[0]; }
      PrefixBehind(section, Parts(d), Parts(e));
      PlainParts(e);
      assert Beyond(s, js, d);
    }
    if e :| e in s.fields && Astray(js, e) && Parts(d) < Parts(e) {
      var f := AstrayFix(j, r, js, section, e);
      PrefixBehind(section, Parts(d), Parts(e));
    }
  }

  /** What is found afterwards where an astray dependency is taken to be. */
  lemma AstrayAfter(j: Json, r: Json, js: seq<Json>, section: string, d: string)
    requires Round(j, r, js) && section in SECTIONS && Field(j, section).Record?
    requires d in Field(j, section).fields && Astray(js, d)
    ensures Get(r, [section] + Parts(d)) == if Covered(Field(j, section), js, d) then Undefined else Target(js, d).value
  {
    var fixes, q := Reports(j, js), [section] + Parts(d);
    var v := Target(js, d).value;
    AstrayHeadFree(j, r, js, section, d);
    CoveredIff(j, r, js, section, d);
    ReportsMembers(j, js);
    assert j.Record? && Apply(j, fixes) == Some(r);
    hide Reports, Apply, Manifest, Manifests, Target, Parts, Covered, Blocks;
    assert From(j, js, section, d, Fix(q, v));
    FixIn(j, r, js, section, d, Fix(q, v));
    forall f | f in fixes && f.path == q ensures f.expected == v {
      var s', e := FixesOf(j, r, js, f);
      SamePath(section, d, s', e);
    }
    GetFixed(j, fixes, q, v);
  }

  /** And where one is that should have no version, for our own package has none. */
  lemma UnversionedAfter(j: Json, r: Json, js: seq<Json>, section: string, d: string)
    requires Round(j, r, js) && section in SECTIONS && Field(j, section).Record?
    requires d in Field(j, section).fields && !Plain(d) && Target(js, d) == Some(Undefined)
    ensures Get(r, [section] + Parts(d)) == Undefined <==>
            Covered(Field(j, section), js, d) || !Beyond(Field(j, section), js, d)
  {
    var fixes, q, s := Reports(j, js), [section] + Parts(d), Field(j, section);
    ReportsMembers(j, js);
    DottedNotThere(j, section, d);
    DepPathParts(section, d);
    assert j.Record? && Apply(j, fixes) == Some(r);
    hide Reports, Apply, Manifest, Manifests, Target, Parts, Blocks, Under;
    forall f | f in fixes ensures f.path != q {
      var s', e := FixesOf(j, r, js, f);
      if f.path == q { SamePath(section, d, s', e); assert false; }
    }
    GetUnfixed(j, fixes, q);
    BeyondIff(j, r, js, section, d);
    if Parts(d)[0] in s.fields {
      if Beyond(s, js, d) {
        var e :| e in s.fields && Astray(js, e) && Parts(d) < Parts(e);
        AstrayHeadFree(j, r, js, section, e);
        assert false;
      }
    } else {
      CoveredIff(j, r, js, section, d);
      if Under(fixes, q) != [] && !Blocks(fixes, q) {
        SettableAfterFixes(RecordAt(j, q), Under(fixes, q), q);
      }
    }
  }
}
