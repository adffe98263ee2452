/** Packages with dotted names for which the fixes throw, go unnoticed, or are noticed. */
module SecondRoundExamples {
  import opened Options
  import opened JsonValues
  import opened Splitting
  import opened VersionVoting
  import opened VersionFixes
  import opened FixOutcomes
  import opened DottedNames
  import opened FixedSections
  import opened SecondRound
  import opened SavedDocuments

  const ONE := Text("1")

  /** A package without a name that depends on version 1 of each of these. */
  function Package(deps: seq<string>): Json {
    Record([SECTIONS[0]], map[SECTIONS[0] := Record(deps, map d | d in deps :: ONE)])
  }

  /** Different names, none of which leads through the prototype of an object. */
  ghost predicate Listable(deps: seq<string>) {
    Different(deps) && forall d :: d in deps ==> "__proto__" !in Parts(d)
  }

  /** A name of two short parts. */
  lemma TwoParts(d: string, a: string, b: string)
    requires d == a + ['.'] + b && Plain(a) && Plain(b)
    ensures Parts(d) == [a, b] && !Plain(d)
  {
    SplitAt(a, '.', b);
    SplitPlain(a, '.');
    SplitPlain(b, '.');
    assert d[|a|] == '.';
  }

  lemma ListsOne()
    ensures Listable(["a.b"])
  {
    DottedParts();
    ShortParts(["a", "b"]);
    hide Parts;
  }

  lemma ListsTwo()
    ensures Listable(["a", "a.b"])
  {
    assert |"a"| == 1 && |"a.b"| == 3;
    DottedParts();
    ShortParts(["a", "b"]);
    ShortParts(["a"]);
    hide Parts;
  }

  lemma ShortParts(parts: seq<string>)
    requires forall k :: k in parts ==> |k| < 9
    ensures "__proto__" !in parts
  {
    assert |"__proto__"| == 9;
  }

  lemma ShortNotInherited(d: string)
    requires |d| < 7
    ensures !IsInherited(d)
  {
    assert |"constructor"| == 11 && |"hasOwnProperty"| == 14 && |"isPrototypeOf"| == 13;
    assert |"propertyIsEnumerable"| == 20 && |"toLocaleString"| == 14 && |"toString"| == 8 && |"valueOf"| == 7;
    assert |"__defineGetter__"| == |"__defineSetter__"| == |"__lookupGetter__"| == |"__lookupSetter__"| == 16;
  }

  lemma PackageParts(deps: seq<string>)
    requires Listable(deps)
    ensures Manifest(Package(deps)) && Package(deps).Record?
    ensures Field(Package(deps), SECTIONS[0]) == Record(deps, map d | d in deps :: ONE)
    ensures Field(Package(deps), SECTIONS[1]) == Undefined && Field(Package(deps), "name") == Undefined
    ensures forall d :: VotesOf(Package(deps), d) == if d in deps then [ONE] else []
  {
    SectionNames();
    var s, j := Record(deps, map d | d in deps :: ONE), Package(deps);
    OnesFlat(deps);
    assert Field(j, SECTIONS[0]) == s && Field(j, SECTIONS[1]) == Undefined;
    assert Field(j, "name") == Undefined && Field(j, "version") == Undefined;
    PackageManifest(j, s);
  }

  lemma OnesFlat(deps: seq<string>)
    requires Listable(deps)
    ensures var s := Record(deps, map d | d in deps :: ONE); WellFormed(s) && Section(s) && NamesNoPrototype(s)
  {
    var s := Record(deps, map d | d in deps :: ONE);
    forall d | d in s.fields ensures s.fields[d] == ONE && "__proto__" !in Split(d, '.') {
      assert d in deps;
    }
  }

  lemma SectionNames()
    ensures |SECTIONS| == 2 && SECTIONS[0] != SECTIONS[1] && "name" !in SECTIONS && "version" !in SECTIONS
    ensures SECTIONS[0] == "dependencies" && SECTIONS[0] != "name" && SECTIONS[0] != "version"
  {
    NoSection("name");
    NoSection("version");
    assert |"dependencies"| == 12 && |"devDependencies"| == 15 && |"name"| == 4 && |"version"| == 7;
  }

  lemma PackageManifest(j: Json, s: Json)
    requires s.Record? && WellFormed(s) && Section(s) && NamesNoPrototype(s)
    requires j.Record? && Field(j, SECTIONS[0]) == s && Field(j, SECTIONS[1]) == Undefined
    requires Field(j, "name") == Undefined && Field(j, "version") == Undefined
    requires j.keys == [SECTIONS[0]] && j.fields == map[SECTIONS[0] := s]
    ensures Manifest(j)
  {
    SectionNames();
    hide Section, NamesNoPrototype;
    assert Different(j.keys);
    assert forall k :: k in SECTIONS ==> k == SECTIONS[0] || k == SECTIONS[1];
    assert Section(Undefined) && NamesNoPrototype(Undefined) by { NothingListed(); }
  }

  lemma NothingListed()
    ensures Section(Undefined) && NamesNoPrototype(Undefined)
  {
  }

  lemma {:induction false} NamelessOurs(js: seq<Json>, d: string)
    requires forall i :: 0 <= i < |js| ==> js[i].Record? && Field(js[i], "name") == Undefined
    requires d != "undefined" && !IsInherited(d)
    ensures OurVersion(js, d) == None
  {
    hide IsInherited;
    if js != [] { NamelessOurs(js[..|js| - 1], d); }
  }

  lemma TargetOfOne(deps: seq<string>, d: string)
    requires Listable(deps) && d in deps && d != "undefined" && !IsInherited(d)
    ensures Target([Package(deps)], d) == Some(ONE)
  {
    PackageParts(deps);
    hide IsInherited, Package, Manifest;
    var js := [Package(deps)];
    NamelessOurs(js, d);
    assert js[..0] == [];
    assert Votes(js, d) == Votes(js[..0], d) + VotesOf(js[0], d) == [ONE];
    TargetVotedFor(js, d);
  }

  lemma DottedParts()
    ensures Parts("a.b") == ["a", "b"] && Parts("a") == ["a"] && !Plain("a.b") && Plain("a")
  {
    assert "a.b" == "a" + ['.'] + "b";
    TwoParts("a.b", "a", "b");
    SplitPlain("a", '.');
  }

  /** The packages of the first example, and what the fix makes of them. */
  function Before(): seq<Json> {
    [Package(["a.b"])]
  }

  function After(): seq<Json> {
    [Record([SECTIONS[0]],
            map[SECTIONS[0] := Record(["a.b", "a"], map["a.b" := ONE, "a" := Record(["b"], map["b" := ONE])])])]
  }

  lemma AstrayOne(deps: seq<string>, d: string)
    requires Listable(deps) && d in deps && !Plain(d) && !IsInherited(d)
    ensures var js := [Package(deps)]; Manifests(js) && Astray(js, d) && Target(js, d) == Some(ONE)
  {
    assert Plain("undefined");
    PackageParts(deps);
    TargetOfOne(deps, d);
  }

  lemma MismatchesOfOne(j: Json, section: string, d: string, js: seq<Json>)
    ensures Mismatches(j, section, [d], js) == Mismatch(j, section, d, js)
  {
    hide Mismatch;
    assert [d][..0] == [];
    assert Mismatches(j, section, [d], js) == Mismatches(j, section, [], js) + Mismatch(j, section, d, js);
  }

  lemma OneReport()
    ensures Before()[0].Record? && Reports(Before()[0], Before()) == [Fix([SECTIONS[0], "a", "b"], ONE)]
  {
    hide *;
    BeforeFields();
    OneMismatch();
    var js := Before();
    var j, s := js[0], SECTIONS[0];
    MismatchesOfOne(j, s, "a.b", js);
    assert [s] + ["a", "b"] == [s, "a", "b"];
    OnlyFirstSection(j, js, ["a.b"]);
  }

  lemma BeforeFields()
    ensures |Before()| == 1 && |SECTIONS| == 2 && Before()[0].Record?
    ensures var j := Before()[0];
            && Field(j, SECTIONS[0]).Record? && Field(j, SECTIONS[0]).keys == ["a.b"]
            && Field(j, SECTIONS[1]) == Undefined
  {
    ListsOne();
    PackageParts(["a.b"]);
    hide Package;
  }

  lemma OneMismatch()
    ensures Mismatch(Before()[0], SECTIONS[0], "a.b", Before()) == [Fix([SECTIONS[0]] + ["a", "b"], ONE)]
  {
    var js := Before();
    ListsOne();
    DottedParts();
    ShortNotInherited("a.b");
    AstrayOne(["a.b"], "a.b");
    PackageParts(["a.b"]);
    assert "a.b" in Field(js[0], SECTIONS[0]).fields;
    hide Target, VotesOf, Same, Parts, Manifest, Astray, Mismatch, Plain;
    MismatchOf(js[0], SECTIONS[0], "a.b", js);
  }

  lemma OnlyFirstSection(j: Json, js: seq<Json>, deps: seq<string>)
    requires j.Record? && Field(j, SECTIONS[0]).Record? && Field(j, SECTIONS[0]).keys == deps
             && Field(j, SECTIONS[1]) == Undefined
    ensures Reports(j, js) == Mismatches(j, SECTIONS[0], deps, js)
  {
    hide Mismatches;
    assert SectionReports(j, SECTIONS[1], js) == [];
  }

  lemma OneSet()
    ensures var j, path := Before()[0], [SECTIONS[0], "a", "b"]; Settable(j, path) && Set(j, path, ONE) == After()[0]
  {
    Sizes();
    SectionNames();
    BeforeDeps();
    var j := Before()[0];
    hide *;
    var made := Record(["a.b", "a"], map["a.b" := ONE, "a" := Record(["b"], map["b" := ONE])]);
    SetAB(Field(j, SECTIONS[0]));
    WithSection(j, Field(j, SECTIONS[0]), made);
  }

  lemma SetAB(deps: Json)
    requires deps == Record(["a.b"], map["a.b" := ONE])
    ensures Settable(deps, ["a", "b"])
    ensures Set(deps, ["a", "b"], ONE)
            == Record(["a.b", "a"], map["a.b" := ONE, "a" := Record(["b"], map["b" := ONE])])
  {
    assert ["a", "b"][1..] == ["b"];
    assert "a" != "a.b" by { assert |"a"| == 1 && |"a.b"| == 3; }
    SetB();
    NoIndex("a");
    ShortNotInherited("a");
    hide IsInherited, IsIndex, Insert;
    InsertLast(deps.keys, "a");
    assert Set(deps, ["a", "b"], ONE) == With(deps, "a", Record(["b"], map["b" := ONE]));
  }

  lemma BeforeDeps()
    ensures Before()[0].Record? && Before()[0].keys == [SECTIONS[0]]
    ensures Field(Before()[0], SECTIONS[0]) == Record(["a.b"], map["a.b" := ONE])
    ensures Before()[0].fields == map[SECTIONS[0] := Record(["a.b"], map["a.b" := ONE])]
  {
    assert (map d | d in ["a.b"] :: ONE) == map["a.b" := ONE];
  }

  lemma WithSection(j: Json, deps: Json, made: Json)
    requires |SECTIONS| == 2 && |Before()| == |After()| == 1
    requires j == Before()[0] && j.Record? && deps == Field(j, SECTIONS[0]) && deps.Record?
    requires Settable(deps, ["a", "b"]) && Set(deps, ["a", "b"], ONE) == made
    requires made == Record(["a.b", "a"], map["a.b" := ONE, "a" := Record(["b"], map["b" := ONE])])
    ensures var path := [SECTIONS[0], "a", "b"]; Settable(j, path) && Set(j, path, ONE) == After()[0]
  {
    BeforeDeps();
    var k, rest := SECTIONS[0], ["a", "b"];
    assert [k, "a", "b"][1..] == rest && [k, "a", "b"][0] == k;
    hide *;
    SetOneFurther(j, k, rest, [k, "a", "b"], made);
    AfterIs(k, made);
    assert j.fields[k := made] == map[k := made];
  }

  lemma SetOneFurther(j: Json, k: string, rest: seq<string>, path: seq<string>, made: Json)
    requires j.Record? && k in j.fields && rest != [] && path != [] && path[0] == k && path[1..] == rest
    requires Settable(j.fields[k], rest) && Set(j.fields[k], rest, ONE) == made
    ensures Settable(j, path) && Set(j, path, ONE) == Record(j.keys, j.fields[k := made])
  {
    hide IsInherited, Insert;
  }

  lemma AfterIs(k: string, made: Json)
    requires k == SECTIONS[0]
    requires made == Record(["a.b", "a"], map["a.b" := ONE, "a" := Record(["b"], map["b" := ONE])])
    ensures |After()| == 1 && After()[0] == Record([k], map[k := made])
  {
  }

  lemma NoIndex(k: string)
    requires k in ["a", "b"]
    ensures !IsIndex(k)
  {
    assert k[0] == 'a' || k[0] == 'b';
  }

  lemma InsertLast(keys: seq<string>, k: string)
    requires !IsIndex(k)
    ensures Insert(keys, k) == keys + [k]
  {
    hide IsIndex;
  }

  lemma SetB()
    ensures Settable(EMPTY, ["b"]) && Set(EMPTY, ["b"], ONE) == Record(["b"], map["b" := ONE])
  {
    NoIndex("b");
    hide IsIndex, IsInherited;
    InsertLast([], "b");
  }

  lemma OutcomeOfOne(js: seq<Json>, rs: seq<Json>, fix: Fix)
    requires |js| == |rs| == 1 && js[0].Record? && Reports(js[0], js) == [fix]
    requires Settable(js[0], fix.path) && Set(js[0], fix.path, fix.expected) == rs[0]
    ensures Outcome(js, rs)
  {
    hide Reports, Settable, Set;
    ApplyOneMore(js[0], [], fix);
    assert [] + [fix] == [fix] && Apply(js[0], []) == Some(js[0]);
    assert OutcomeAt(js, rs, 0);
  }

  lemma OneFix()
    ensures Outcome(Before(), After())
  {
    hide *;
    Sizes();
    BeforeFields();
    OneReport();
    OneSet();
    OutcomeOfOne(Before(), After(), Fix([SECTIONS[0], "a", "b"], ONE));
  }

  lemma Sizes()
    ensures |Before()| == |After()| == 1
  {
  }

  lemma NoManifest(rs: seq<Json>)
    requires |rs| == 1 && (rs[0].Record? ==> !Manifest(rs[0]))
    ensures !Manifests(rs)
  {
  }

  lemma QuietExample(i: int, section: string)
    requires At(Before(), i, section)
    ensures QuietSection(Before(), i, section)
  {
    var js := Before();
    Sizes();
    BeforeFields();
    BeforeDeps();
    var s := Field(js[0], SECTIONS[0]);
    assert i == 0 && (section == SECTIONS[0] || section == SECTIONS[1]);
    hide QuietEntry, QuietStray, StrayHead, Before;
    if section == SECTIONS[0] {
      assert forall e :: e in s.fields ==> e == "a.b";
      QuietDotted(s, js);
      forall a | StrayHead(s, js, a) ensures QuietStray(js, 0, section, a) {
        OnlyHead(s, js, a);
        StrayExample(section);
      }
    }
  }

  lemma QuietDotted(s: Json, js: seq<Json>)
    requires s.Record? && (forall e :: e in s.fields ==> e == "a.b") && js == Before()
    ensures QuietEntry(s, js, "a.b")
  {
    ListsOne();
    DottedParts();
    ShortNotInherited("a.b");
    AstrayOne(["a.b"], "a.b");
    hide Target, Parts, Plain, Astray, IsInherited, Package, Listable;
  }

  lemma OnlyHead(s: Json, js: seq<Json>, a: string)
    requires s.Record? && (forall e :: e in s.fields ==> e == "a.b") && StrayHead(s, js, a)
    ensures a == "a"
  {
    DottedParts();
    hide Parts, Astray;
  }

  lemma StrayExample(section: string)
    requires section == SECTIONS[0]
    ensures At(Before(), 0, section) && QuietStray(Before(), 0, section, "a")
  {
    var js := Before();
    ListsOne();
    PackageParts(["a.b"]);
    assert |"a"| == 1 && |"a.b"| == 3 && |"undefined"| == 9;
    ShortNotInherited("a");
    NamelessOurs(js, "a");
    hide Target, VotesOf, Plain, Manifest, Stray, StrayHead, Shown;
    forall k, t | At(js, k, t)
      ensures !(Field(js[k], t).Record? && "a" in Field(js[k], t).fields)
      ensures StrayHead(Field(js[k], t), js, "a") ==> Same(Stray(js[0], section, "a", js), Stray(js[k], t, "a", js))
    {
      assert k == 0 && (t == SECTIONS[0] || t == SECTIONS[1]);
      if t == SECTIONS[1] { NoStrayInNothing(js, "a"); }
    }
  }

  lemma NoStrayInNothing(js: seq<Json>, a: string)
    ensures !StrayHead(Undefined, js, a)
  {
  }

  lemma BeforeSaves()
    ensures AllWhole(Before()) && StaysCountable(Before())
  {
    Sizes();
    BeforeDeps();
    BeforeFields();
    ShortNotInherited("a.b");
    hide IsInherited, Package, Before, StaysCountableIn;
    BeforeWhole(Before()[0]);
    forall i, s | At(Before(), i, s) ensures StaysCountableIn(Field(Before()[i], s), Before()) {
      assert i == 0 && (s == SECTIONS[0] || s == SECTIONS[1]);
      StaysIfNoneInherited(Field(Before()[0], s), Before());
    }
  }

  lemma BeforeWhole(j: Json)
    requires j.Record? && j.fields == map[SECTIONS[0] := Record(["a.b"], map["a.b" := ONE])]
    ensures Whole(j)
  {
    assert Whole(ONE);
    assert Whole(Record(["a.b"], map["a.b" := ONE]));
  }

  lemma StaysIfNoneInherited(s: Json, js: seq<Json>)
    requires s.Record? ==> forall d :: d in s.fields ==> !IsInherited(d)
    ensures StaysCountableIn(s, js)
  {
    hide IsInherited, Target;
  }

  /** The record that the fix leaves behind wins its own vote, so that the next run succeeds
      although the package is no manifest and the entry `a.b` is as it was. */
  lemma StrayRecordUnnoticed()
    ensures Manifests(Before()) && Astray(Before(), "a.b")
    ensures Outcome(Before(), After()) && !Manifests(After())
    ensures AllCountable(Saved(After())) && Silent(Saved(After()))
  {
    var js := Before();
    OneFix();
    ListsOne();
    DottedParts();
    ShortNotInherited("a.b");
    AstrayOne(["a.b"], "a.b");
    PackageParts(["a.b"]);
    BeforeSaves();
    forall i, t | At(js, i, t) ensures QuietSection(js, i, t) { QuietExample(i, t); }
    assert Field(js[0], SECTIONS[0]).Record? && "a.b" in Field(js[0], SECTIONS[0]).fields;
    hide Outcome, QuietSection, Manifests, Astray, Manifest, Target, StaysCountable, Package, AllWhole;
    NextRunIff(js, After());
    assert SECTIONS[0] in SECTIONS && !NoDotted(js[0], js);
    AstrayLeavesRecord(js, After(), 0);
    NoManifest(After());
  }

  // ---------------------------------------------------------------- fixes and counts that throw

  /** A dotted name whose first part has an entry of its own: the fix throws. */
  lemma FixThrows()
    ensures var js := [Package(["a", "a.b"])]; Manifests(js) && js[0].Record? && Apply(js[0], Reports(js[0], js)).None?
  {
    var deps := ["a", "a.b"];
    var js := [Package(deps)];
    ListsTwo();
    DottedParts();
    ShortNotInherited("a.b");
    AstrayOne(deps, "a.b");
    PackageParts(deps);
    hide IsInherited, Target, Manifest, Parts, Plain, Astray;
    FixesSucceedIff(js[0], js);
    assert Field(js[0], SECTIONS[0]).keys[1] == "a.b";
    assert !FixableEntry(Field(js[0], SECTIONS[0]), js, 1);
    assert !FixableSection(Field(js[0], SECTIONS[0]), js);
  }

  lemma InheritedParts()
    ensures Parts("toString.js") == ["toString", "js"] && !Plain("toString.js") && IsInherited("toString")
    ensures !Makeable(Parts("toString.js"))
  {
    assert |"toString"| == 8 && |"js"| == 2 && "toString.js" == "toString" + ['.'] + "js";
    TwoParts("toString.js", "toString", "js");
    assert IsInherited("toString") && Parts("toString.js")[0] == "toString";
    hide IsInherited;
  }

  lemma DottedNotInherited(d: string)
    requires !Plain(d)
    ensures !IsInherited(d)
  {
    hide IsInherited, Plain;
    if IsInherited(d) { InheritedPlain(d); }
  }

  lemma ListsDotted(d: string, a: string, b: string)
    requires Parts(d) == [a, b] && |a| < 9 && |b| < 9 && !Plain(d)
    ensures Listable([d]) && !IsInherited(d)
  {
    ShortParts([a, b]);
    hide Parts, IsInherited, Plain;
    DottedNotInherited(d);
  }

  /** A dotted name that starts with an inherited one: the fix throws as well. */
  lemma InheritedPartThrows()
    ensures var js := [Package(["toString.js"])];
            Manifests(js) && js[0].Record? && Apply(js[0], Reports(js[0], js)).None?
  {
    var d := "toString.js";
    var js := [Package([d])];
    InheritedParts();
    assert |"toString"| == 8 && |"js"| == 2;
    ListsDotted(d, "toString", "js");
    hide IsInherited, Target, Manifest, Parts, Plain, Astray, Makeable, Listable;
    AstrayOne([d], d);
    PackageParts([d]);
    FixesSucceedIff(js[0], js);
    var s := Field(js[0], SECTIONS[0]);
    assert s.keys[0] == d && !FixableEntry(s, js, 0);
    assert !FixableSection(s, js);
  }

  lemma ListsConstructor()
    ensures Listable(["constructor"]) && IsInherited("constructor") && ONE != Text("*")
  {
    var d := "constructor";
    assert |d| == 11 && |"__proto__"| == 9 && "1"[0] != "*"[0];
    assert IsInherited(d);
    hide *;
    InheritedPlain(d);
    PlainParts(d);
    ListsPlain(d);
  }

  lemma ListsPlain(d: string)
    requires Parts(d) == [d] && d != "__proto__"
    ensures Listable([d])
  {
    hide Parts;
  }

  /** A version asked for under an inherited name cannot be counted. */
  lemma CountThrows()
    ensures var js := [Package(["constructor"])]; Manifests(js) && !AllCountable(js)
  {
    var js := [Package(["constructor"])];
    ListsConstructor();
    hide IsInherited, Manifest, Parts, Listable;
    PackageParts(["constructor"]);
    var s := Field(js[0], SECTIONS[0]);
    assert s.Record? && s.fields["constructor"] == ONE && !CountableSection(s);
    assert SECTIONS[0] in SECTIONS && !Countable(js[0]);
  }

  // ---------------------------------------------------------------- the same names in another order

  ghost predicate TwoIndices(x: string, y: string) {
    IsIndex(x) && IsIndex(y) && x != y
  }

  function Pair(x: string, y: string): Json {
    Package(["a." + x, "a." + y])
  }

  /** Two packages that list the same two names in different orders. */
  function Both(x: string, y: string): seq<Json> {
    [Pair(x, y), Pair(y, x)]
  }

  lemma IndexedName(x: string)
    requires IsIndex(x)
    ensures Parts("a." + x) == ["a", x] && !Plain("a." + x) && !IsInherited("a." + x)
    ensures "__proto__" !in Parts("a." + x) && "a." + x != "a" && !IsInherited("a")
  {
    assert Plain(x) && x[0] != '_' && Plain("a");
    assert "a." + x == "a" + ['.'] + x;
    TwoParts("a." + x, "a", x);
    DottedNotInherited("a." + x);
    ShortNotInherited("a");
    assert |"a"| == 1 && |"__proto__"| == 9 && "__proto__"[0] == '_';
    assert |"a." + x| > 1;
  }

  lemma ListsPair(x: string, y: string)
    requires TwoIndices(x, y)
    ensures Listable(["a." + x, "a." + y])
  {
    IndexedName(x);
    IndexedName(y);
    assert ("a." + x)[2..] == x && ("a." + y)[2..] == y;
    hide Parts, IsIndex;
  }

  /** Both packages ask for version 1 of `d`. */
  lemma BothVote(js: seq<Json>, d: string)
    requires |js| == 2 && VotesOf(js[0], d) == VotesOf(js[1], d) == [ONE]
    ensures Votes(js, d) == [ONE, ONE]
  {
    hide VotesOf;
    assert js[..1] == [js[0]] && js[..1][..0] == [];
    assert Votes(js[..1], d) == Votes(js[..1][..0], d) + VotesOf(js[0], d) == [ONE];
    assert Votes(js, d) == Votes(js[..1], d) + VotesOf(js[1], d);
  }

  lemma BothParts(x: string, y: string)
    requires TwoIndices(x, y)
    ensures var js := Both(x, y);
      && |js| == 2 && Manifests(js) && js[0].Record? && js[1].Record?
      && Field(js[0], "name") == Field(js[1], "name") == Undefined
      && forall d :: d in ["a." + x, "a." + y] ==> VotesOf(js[0], d) == VotesOf(js[1], d) == [ONE]
  {
    ListsPair(x, y);
    ListsPair(y, x);
    hide IsIndex, Package, Manifest, Listable, VotesOf;
    PackageParts(["a." + x, "a." + y]);
    PackageParts(["a." + y, "a." + x]);
  }

  lemma VotedOne(js: seq<Json>, d: string)
    requires OurVersion(js, d) == None && Votes(js, d) == [ONE, ONE]
    ensures Target(js, d) == Some(ONE) && (!Plain(d) ==> Astray(js, d))
  {
    hide Target, Votes, OurVersion, Plain;
    TargetVotedFor(js, d);
  }

  lemma TargetOfBoth(js: seq<Json>, d: string)
    requires |js| == 2 && VotesOf(js[0], d) == VotesOf(js[1], d) == [ONE] && !Plain(d)
    requires forall i :: 0 <= i < |js| ==> js[i].Record? && Field(js[i], "name") == Undefined
    ensures Astray(js, d) && Target(js, d) == Some(ONE)
  {
    hide *;
    NotUndefined(d);
    DottedNotInherited(d);
    NamelessOurs(js, d);
    BothVote(js, d);
    VotedOne(js, d);
  }

  lemma BothTarget(x: string, y: string, d: string)
    requires TwoIndices(x, y) && d in ["a." + x, "a." + y]
    ensures var js := Both(x, y); Manifests(js) && Astray(js, d) && Target(js, d) == Some(ONE)
  {
    IndexOf(x, y);
    hide *;
    BothParts(x, y);
    if d == "a." + x { IndexedName(x); } else { IndexedName(y); }
    TargetOfBoth(Both(x, y), d);
  }

  lemma NotUndefined(d: string)
    requires !Plain(d)
    ensures d != "undefined"
  {
    assert Plain("undefined");
  }

  lemma PairFields(x: string, y: string)
    requires TwoIndices(x, y)
    ensures var p := Pair(x, y);
      && Manifest(p) && p.Record? && Field(p, SECTIONS[0]).Record? && Field(p, SECTIONS[1]) == Undefined
      && Field(p, SECTIONS[0]).keys == ["a." + x, "a." + y]
      && forall d :: d in Field(p, SECTIONS[0]).fields <==> d == "a." + x || d == "a." + y
  {
    ListsPair(x, y);
    hide IsIndex, Package, Manifest, Listable, VotesOf;
    PackageParts(["a." + x, "a." + y]);
  }

  lemma PairMismatch(x: string, y: string, d: string, z: string, js: seq<Json>)
    requires TwoIndices(x, y) && js in [Both(x, y), Both(y, x)] && d == "a." + z && z in [x, y]
    ensures Mismatch(Pair(x, y), SECTIONS[0], d, js) == [Fix([SECTIONS[0], "a", z], ONE)]
  {
    assert IsIndex(z) && SECTIONS[0] in SECTIONS && [SECTIONS[0]] + ["a", z] == [SECTIONS[0], "a", z];
    hide *;
    PairFields(x, y);
    IndexedName(z);
    if js == Both(x, y) { BothTarget(x, y, d); } else { BothTarget(y, x, d); }
    MismatchOf(Pair(x, y), SECTIONS[0], d, js);
  }

  lemma MismatchesOfTwo(j: Json, section: string, d: string, e: string, js: seq<Json>)
    ensures Mismatches(j, section, [d, e], js) == Mismatch(j, section, d, js) + Mismatch(j, section, e, js)
  {
    hide Mismatch;
    assert [d, e][..1] == [d];
    MismatchesOfOne(j, section, d, js);
  }

  lemma PairReports(x: string, y: string, js: seq<Json>)
    requires TwoIndices(x, y) && js in [Both(x, y), Both(y, x)]
    ensures var p, s := Pair(x, y), SECTIONS[0];
            p.Record? && Reports(p, js) == [Fix([s, "a", x], ONE), Fix([s, "a", y], ONE)]
  {
    var p, s := Pair(x, y), SECTIONS[0];
    hide *;
    PairFields(x, y);
    PairMismatch(x, y, "a." + x, x, js);
    PairMismatch(x, y, "a." + y, y, js);
    MismatchesOfTwo(p, s, "a." + x, "a." + y, js);
    OnlyFirstSection(p, js, ["a." + x, "a." + y]);
  }

  /** The record that the fixes of a pair make. */
  function Made(x: string, y: string): Json {
    With(With(EMPTY, x, ONE), y, ONE)
  }

  lemma PairStray(x: string, y: string, js: seq<Json>)
    requires TwoIndices(x, y) && js in [Both(x, y), Both(y, x)]
    ensures Pair(x, y).Record? && Stray(Pair(x, y), SECTIONS[0], "a", js) == Made(x, y)
  {
    PairReports(x, y, js);
    hide Reports, Package, IsIndex, Insert;
    UnderPair(SECTIONS[0], x, y);
    ApplyPair(x, y);
  }

  lemma UnderPair(s: string, x: string, y: string)
    ensures Under([Fix([s, "a", x], ONE), Fix([s, "a", y], ONE)], [s, "a"]) == [Fix([x], ONE), Fix([y], ONE)]
  {
    var f, g := Fix([s, "a", x], ONE), Fix([s, "a", y], ONE);
    assert [f, g][..1] == [f] && [f][..0] == [];
    assert [s, "a", x] == [s, "a"] + [x] && [s, "a", y] == [s, "a"] + [y];
    assert [s, "a"] < f.path && f.path[2..] == [x] && [s, "a"] < g.path && g.path[2..] == [y];
    assert Under([f], [s, "a"]) == Under([], [s, "a"]) + [Fix([x], ONE)] == [Fix([x], ONE)];
    assert Under([f, g], [s, "a"]) == Under([f], [s, "a"]) + [Fix([y], ONE)];
  }

  lemma ApplyPair(x: string, y: string)
    ensures Apply(EMPTY, [Fix([x], ONE), Fix([y], ONE)]) == Some(Made(x, y))
  {
    var f, g := Fix([x], ONE), Fix([y], ONE);
    hide Insert;
    ApplyOneMore(EMPTY, [], f);
    ApplyOneMore(EMPTY, [f], g);
    assert [] + [f] == [f] && [f] + [g] == [f, g] && Apply(EMPTY, []) == Some(EMPTY);
  }

  lemma MadeSame(x: string, y: string)
    requires TwoIndices(x, y)
    ensures Made(x, y) == Made(y, x)
  {
    hide IsIndex, Insert;
    IndicesInAnyOrder(EMPTY, x, ONE, y, ONE);
  }

  lemma PairFixable(x: string, y: string, js: seq<Json>)
    requires TwoIndices(x, y) && js in [Both(x, y), Both(y, x)]
    ensures Pair(x, y).Record? && Fixable(Pair(x, y), js)
  {
    var p := Pair(x, y);
    PairFields(x, y);
    IndexedName(x);
    IndexedName(y);
    hide Parts, IsIndex, IsInherited, Package, Astray, Manifest;
    forall s | s in SECTIONS && Field(p, s).Record? ensures FixableSection(Field(p, s), js) {
      assert s == SECTIONS[0];
      var t := Field(p, s);
      forall k | 0 <= k < |t.keys| ensures FixableEntry(t, js, k) {
        assert Parts(t.keys[k])[0] == "a" && "a" !in t.fields;
      }
    }
  }

  lemma PairAt(x: string, y: string, i: int)
    requires 0 <= i < |Both(x, y)|
    ensures Both(x, y)[i] == if i == 0 then Pair(x, y) else Pair(y, x)
  {
  }

  lemma PairQuietEntry(x: string, y: string, s: Json, d: string)
    requires TwoIndices(x, y) && s.Record? && d in s.fields
    requires forall e :: e in s.fields ==> e in ["a." + x, "a." + y]
    ensures QuietEntry(s, Both(x, y), d)
  {
    IndexedName(x);
    IndexedName(y);
    BothTarget(x, y, d);
    hide Parts, IsIndex, IsInherited, Both, Astray, Target, Plain;
    assert !Covered(s, Both(x, y), d);
  }

  /** The record made for one of the packages is that made for the other. */
  lemma PairQuietStray(x: string, y: string, i: int, a: string)
    requires TwoIndices(x, y) && At(Both(x, y), i, SECTIONS[0])
    requires StrayHead(Field(Both(x, y)[i], SECTIONS[0]), Both(x, y), a)
    ensures QuietStray(Both(x, y), i, SECTIONS[0], a)
  {
    var js := Both(x, y);
    PairHeads(x, y, i, a);
    BothOurs(x, y);
    hide Both, TwoIndices, Stray, StrayHead, Same;
    forall k, t | At(js, k, t)
      ensures !(Field(js[k], t).Record? && a in Field(js[k], t).fields)
      ensures StrayHead(Field(js[k], t), js, a) ==> Same(Stray(js[i], SECTIONS[0], a, js), Stray(js[k], t, a, js))
    {
      PairSections(x, y, k);
      assert t == SECTIONS[0] || t == SECTIONS[1];
      if t == SECTIONS[0] { PairsAlike(x, y, i, k); } else { NoStrayInNothing(js, a); }
    }
  }

  lemma PairSections(x: string, y: string, i: int)
    requires TwoIndices(x, y) && 0 <= i < |Both(x, y)|
    ensures var j := Both(x, y)[i];
      && j.Record? && Field(j, SECTIONS[0]).Record? && Field(j, SECTIONS[1]) == Undefined
      && forall d :: d in Field(j, SECTIONS[0]).fields ==> d in ["a." + x, "a." + y] && d != "a"
  {
    PairAt(x, y, i);
    PairFields(x, y);
    PairFields(y, x);
    IndexedName(x);
    IndexedName(y);
    hide Both, Pair, IsIndex, Manifest, Parts, IsInherited, Plain;
  }

  lemma PairHeads(x: string, y: string, i: int, a: string)
    requires TwoIndices(x, y) && 0 <= i < |Both(x, y)| && Both(x, y)[i].Record?
    requires StrayHead(Field(Both(x, y)[i], SECTIONS[0]), Both(x, y), a)
    ensures a == "a"
  {
    PairSections(x, y, i);
    IndexedName(x);
    IndexedName(y);
    hide Parts, IsIndex, IsInherited, Both, Astray, Target, Plain, Pair, Manifest;
  }

  lemma BothOurs(x: string, y: string)
    requires TwoIndices(x, y)
    ensures OurVersion(Both(x, y), "a") == None
  {
    assert "a" != "undefined" by { assert |"a"| == 1 && |"undefined"| == 9; }
    hide *;
    IndexedName(x) by { assert IsIndex(x) by { IndexOf(x, y); } }
    BothParts(x, y);
    NamelessOurs(Both(x, y), "a");
  }

  lemma IndexOf(x: string, y: string)
    requires TwoIndices(x, y)
    ensures IsIndex(x) && IsIndex(y)
  {
    hide IsIndex;
  }

  lemma PairsAlike(x: string, y: string, i: int, k: int)
    requires TwoIndices(x, y) && 0 <= i < |Both(x, y)| && 0 <= k < |Both(x, y)|
    ensures Both(x, y)[i].Record? && Both(x, y)[k].Record?
    ensures var js := Both(x, y);
            Same(Stray(js[i], SECTIONS[0], "a", js), Stray(js[k], SECTIONS[0], "a", js))
  {
    var js := Both(x, y);
    assert TwoIndices(y, x) && js in [Both(x, y), Both(y, x)] && js in [Both(y, x), Both(x, y)];
    hide *;
    PairAt(x, y, i);
    PairAt(x, y, k);
    PairStray(x, y, js);
    PairStray(y, x, js);
    MadeSame(x, y);
    SameSelf(Made(x, y));
  }

  lemma SameSelf(j: Json)
    ensures Same(j, j)
  {
  }

  lemma PairQuiet(x: string, y: string, i: int, section: string)
    requires TwoIndices(x, y) && At(Both(x, y), i, section)
    ensures QuietSection(Both(x, y), i, section)
  {
    var js := Both(x, y);
    assert section == SECTIONS[0] || section == SECTIONS[1];
    var s := Field(js[i], section);
    PairAt(x, y, i);
    PairFields(x, y);
    PairFields(y, x);
    hide Pair, Both, Manifest, IsIndex, QuietEntry, QuietStray, StrayHead;
    if section == SECTIONS[0] {
      forall d | d in s.fields ensures QuietEntry(s, js, d) { PairQuietEntry(x, y, s, d); }
      forall a | StrayHead(s, js, a) ensures QuietStray(js, i, section, a) { PairQuietStray(x, y, i, a); }
    }
  }

  /** Names with indices in them may come in any order: the records made are the same, so that the
      fixes succeed and a second round has nothing to say. */
  lemma IndicesAgree(x: string, y: string)
    requires TwoIndices(x, y)
    ensures var js := Both(x, y); Manifests(js) && AllFixable(js) && Quiet(js)
    ensures exists rs :: Outcome(Both(x, y), rs) && Silent(rs)
  {
    var js := Both(x, y);
    BothParts(x, y);
    assert js == [Pair(x, y), Pair(y, x)] && js in [Both(x, y), Both(y, x)] && js in [Both(y, x), Both(x, y)];
    PairFixable(x, y, js);
    PairFixable(y, x, js);
    hide Pair, Both, IsIndex, QuietSection, Fixable, Manifests, Outcome, Silent, TwoIndices;
    forall i, s | At(js, i, s) ensures QuietSection(js, i, s) { PairQuiet(x, y, i, s); }
    OutcomeIffFixable(js);
    var rs :| Outcome(js, rs);
    SilentIffQuiet(js, rs);
  }
}
