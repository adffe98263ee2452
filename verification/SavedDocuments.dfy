/** What the next run of the version rule reads from the files in which fixed packages were saved. */
module SavedDocuments {
  import opened Options
  import opened JsonValues
  import opened Splitting
  import opened VersionVoting
  import opened VersionFixes
  import opened FixOutcomes
  import opened DottedNames
  import opened FixedSections
  import opened SecondRound

  /** All fields have values, as in a document that was read from a file. */
  ghost predicate Whole(j: Json) {
    j.Record? ==> forall k :: k in j.fields ==> j.fields[k] != Undefined && Whole(j.fields[k])
  }

  ghost predicate AllWhole(js: seq<Json>) {
    forall i :: 0 <= i < |js| ==> Whole(js[i])
  }

  /** The documents as they are read back: a field without a value is not written. */
  function Saved(js: seq<Json>): (r: seq<Json>)
    ensures |r| == |js| && forall i :: 0 <= i < |js| ==> r[i] == Shown(js[i])
  {
    seq(|js|, i requires 0 <= i < |js| => Shown(js[i]))
  }

  // ---------------------------------------------------------------- documents as they are read back

  lemma {:induction false} ShownKeysAre(keys: seq<string>, fields: map<string, Json>)
    ensures forall k :: k in ShownKeys(keys, fields) <==> k in keys && k in fields && fields[k] != Undefined
  {
    if keys != [] {
      ShownKeysAre(keys[..|keys| - 1], fields);
      assert keys == keys[..|keys| - 1] + [keys[|keys| - 1]];
    }
  }

  lemma {:induction false} ShownKeysDiffer(keys: seq<string>, fields: map<string, Json>)
    requires Different(keys)
    ensures Different(ShownKeys(keys, fields))
  {
    if keys != [] {
      var init, last := keys[..|keys| - 1], keys[|keys| - 1];
      ShownKeysDiffer(init, fields);
      ShownKeysAre(init, fields);
      assert last !in init;
    }
  }

  lemma {:induction false} AllKeysShown(keys: seq<string>, fields: map<string, Json>)
    requires forall k :: k in keys ==> k in fields && fields[k] != Undefined
    ensures ShownKeys(keys, fields) == keys
  {
    if keys != [] {
      assert keys == keys[..|keys| - 1] + [keys[|keys| - 1]];
      AllKeysShown(keys[..|keys| - 1], fields);
    }
  }

  lemma {:induction false} ShownWellFormed(j: Json)
    requires WellFormed(j)
    ensures WellFormed(Shown(j))
  {
    if j.Record? {
      ShownKeysAre(j.keys, j.fields);
      ShownKeysDiffer(j.keys, j.fields);
      forall k | k in j.fields && j.fields[k] != Undefined ensures WellFormed(Shown(j.fields[k])) {
        ShownWellFormed(j.fields[k]);
      }
    }
  }

  lemma {:induction false} ShownIsWhole(j: Json)
    ensures Whole(Shown(j)) && (Shown(j) == Undefined <==> j == Undefined)
  {
    if j.Record? {
      forall k | k in j.fields && j.fields[k] != Undefined
        ensures Shown(j.fields[k]) != Undefined && Whole(Shown(j.fields[k]))
      {
        ShownIsWhole(j.fields[k]);
      }
    }
  }

  lemma {:induction false} WholeIsShown(j: Json)
    requires WellFormed(j) && Whole(j)
    ensures Shown(j) == j
  {
    if j.Record? {
      AllKeysShown(j.keys, j.fields);
      forall k | k in j.fields ensures Shown(j.fields[k]) == j.fields[k] { WholeIsShown(j.fields[k]); }
    }
  }

  lemma ShownField(j: Json, k: string)
    requires j.Record?
    ensures Shown(j).Record? && Field(Shown(j), k) == Shown(Field(j, k))
  {
  }

  lemma {:induction false} ShownGet(j: Json, path: seq<string>)
    ensures Get(Shown(j), path) == Shown(Get(j, path))
    decreases |path|
  {
    if path != [] && j.Record? {
      ShownField(j, path[0]);
      ShownGet(Field(j, path[0]), path[1..]);
    }
  }

  /** A comparison of texts does not notice whether a document was saved. */
  lemma SameShown(a: Json, b: Json)
    requires WellFormed(a)
    ensures Same(Shown(a), b) <==> Same(a, b)
  {
    ShownWellFormed(a);
    ShownIsWhole(a);
    WholeIsShown(Shown(a));
  }

  lemma {:induction false} SetKeepsWhole(j: Json, path: seq<string>, v: Json)
    requires Whole(j) && Whole(v) && v != Undefined && Settable(j, path)
    ensures Whole(Set(j, path, v)) && Set(j, path, v).Record?
    decreases |path|
  {
    hide IsInherited, Insert;
    if |path| > 1 {
      SetKeepsWhole(if path[0] in j.fields then j.fields[path[0]] else EMPTY, path[1..], v);
    }
  }

  lemma {:induction false} ApplyKeepsWhole(j: Json, fixes: seq<Fix>)
    requires Whole(j) && Apply(j, fixes).Some?
    requires forall f :: f in fixes ==> Whole(f.expected) && f.expected != Undefined
    ensures Whole(Apply(j, fixes).value)
  {
    hide Settable, Set, Whole;
    if fixes != [] {
      ApplyKeepsWhole(j, fixes[..|fixes| - 1]);
      var f := fixes[|fixes| - 1];
      assert f in fixes;
      SetKeepsWhole(Apply(j, fixes[..|fixes| - 1]).value, f.path, f.expected);
    }
  }

  // ---------------------------------------------------------------- the version that each use should have

  /** The entry `d` of the section, if it is there, is read back as it is. */
  ghost predicate KeptIn(s: Json, d: string) {
    s.Record? && d in s.fields ==> s.fields[d] != Undefined && Shown(s.fields[d]) == s.fields[d]
  }

  ghost predicate Kept(rs: seq<Json>, d: string) {
    forall i, s :: At(rs, i, s) ==> KeptIn(Field(rs[i], s), d)
  }

  lemma VotesInSaved(s: Json, d: string)
    requires KeptIn(s, d)
    ensures VotesIn(Shown(s), d) == VotesIn(s, d)
  {
  }

  lemma VotesOfSaved(r: Json, d: string)
    requires r.Record? && forall s :: s in SECTIONS ==> KeptIn(Field(r, s), d)
    ensures VotesOf(Shown(r), d) == VotesOf(r, d)
  {
    assert SECTIONS[0] in SECTIONS && SECTIONS[1] in SECTIONS;
    hide VotesIn, Shown, KeptIn;
    ShownField(r, SECTIONS[0]);
    ShownField(r, SECTIONS[1]);
    VotesInSaved(Field(r, SECTIONS[0]), d);
    VotesInSaved(Field(r, SECTIONS[1]), d);
  }

  lemma KeptAt(rs: seq<Json>, d: string, i: nat)
    requires Kept(rs, d) && i < |rs| && rs[i].Record?
    ensures forall s :: s in SECTIONS ==> KeptIn(Field(rs[i], s), d)
  {
    hide KeptIn;
    assert forall s :: s in SECTIONS ==> At(rs, i, s);
  }

  lemma {:induction false} VotesSaved(rs: seq<Json>, d: string, n: nat)
    requires n <= |rs| && Kept(rs, d) && forall i :: 0 <= i < |rs| ==> rs[i].Record?
    ensures Votes(Saved(rs)[..n], d) == Votes(rs[..n], d)
  {
    hide *;
    if n > 0 {
      assert Saved(rs)[..n][..n - 1] == Saved(rs)[..n - 1] && rs[..n][..n - 1] == rs[..n - 1];
      VotesSaved(rs, d, n - 1);
      KeptAt(rs, d, n - 1);
      VotesOfSaved(rs[n - 1], d);
      VotesLast(rs[..n], d);
      VotesLast(Saved(rs)[..n], d);
    } else {
      assert Saved(rs)[..n] == rs[..n];
    }
  }

  lemma {:induction false} OurVersionSaved(js: seq<Json>, rs: seq<Json>, d: string, n: nat)
    requires Manifests(js) && Outcome(js, rs) && n <= |rs|
    ensures OurVersion(Saved(rs)[..n], d) == OurVersion(rs[..n], d)
  {
    var ss := Saved(rs);
    if n == 0 {
      assert ss[..n] == rs[..n];
    } else {
      assert |js| == |rs|;
      assert js[n - 1].Record? && !Field(js[n - 1], "version").Record?;
      hide *;
      OurVersionSaved(js, rs, d, n - 1);
      RoundAt(js, rs, n - 1);
      NoSection("version");
      OtherFieldKept(js[n - 1], rs[n - 1], js, "version");
      ShownField(rs[n - 1], "name");
      ShownField(rs[n - 1], "version");
      ShownFlat(Field(rs[n - 1], "name"));
      ShownFlat(Field(rs[n - 1], "version"));
      OurVersionLast(rs, d, n);
      OurVersionLast(ss, d, n);
    }
  }

  lemma ShownFlat(j: Json)
    ensures KeyOf(Shown(j)) == KeyOf(j) && (!j.Record? ==> Shown(j) == j)
  {
  }

  /** What the fixes of a package write beyond an entry of a section has values. */
  lemma StrayWhole(j: Json, r: Json, js: seq<Json>, section: string, a: string)
    requires Round(j, r, js) && section in SECTIONS && StrayHead(Field(j, section), js, a)
    ensures Whole(Stray(j, section, a, js))
  {
    var fixes, q := Reports(j, js), [section, a];
    ReportsMembers(j, js);
    UnderWrites(fixes, q);
    hide Reports, Apply, Manifest, Manifests, Target, Parts, Under, Whole, StrayHead;
    forall g | g in Under(fixes, q) ensures Whole(g.expected) && g.expected != Undefined {
      var f :| f in fixes && q < f.path && g == Fix(f.path[|q|..], f.expected);
      var s, d := FixesOf(j, r, js, f);
      PlainParts(d);
      TargetFlat(js, d);
      FlatWhole(f.expected);
    }
    FlatWhole(EMPTY);
    if Apply(EMPTY, Under(fixes, q)).Some? { ApplyKeepsWhole(EMPTY, Under(fixes, q)); }
  }

  lemma FlatWhole(v: Json)
    requires !v.Record? || v == EMPTY
    ensures Whole(v)
  {
  }

  lemma {:induction false} VotesWhole(js: seq<Json>, d: string)
    requires AllWhole(js)
    ensures Undefined !in Votes(js, d)
  {
    if js != [] {
      VotesWhole(js[..|js| - 1], d);
      var j := js[|js| - 1];
      assert Whole(j);
      assert forall k :: j.Record? && Field(j, k).Record? ==> Whole(Field(j, k));
    }
  }

  /** An entry without a value is that of a dependency which is a package of ours without a version. */
  lemma EntryWhole(js: seq<Json>, rs: seq<Json>, i: int, section: string, d: string)
    requires Manifests(js) && AllWhole(js) && Outcome(js, rs) && At(js, i, section) && At(rs, i, section)
    requires Field(rs[i], section).Record? && d in Field(rs[i], section).fields
    ensures var v := Field(rs[i], section).fields[d];
            if v == Undefined then Plain(d) && OurVersion(js, d) == Some(Undefined) else WellFormed(v) && Whole(v)
  {
    RoundAt(js, rs, i);
    SectionKeys(js[i], rs[i], js, section);
    GetEntry(rs[i], section, d);
    var s, t := Field(js[i], section), Field(rs[i], section);
    assert WellFormed(t);
    if StrayHead(s, js, d) {
      hide Stray, Round, Outcome, Manifests, Manifest, StrayHead, Astray;
      StrayAfter(js[i], rs[i], js, section, d);
      StrayWhole(js[i], rs[i], js, section, d);
    } else {
      assert Whole(js[i]) && Whole(s);
      TargetFlat(js, d);
      TargetVotedFor(js, d);
      VotesWhole(js, d);
      hide Target, Outcome, Manifests, Manifest, Round, StrayHead, Votes;
      EntryAfter(js[i], rs[i], js, section, d);
      assert t.fields[d] == NewVersion(js, d, s.fields[d]);
      if t.fields[d] != Undefined && !(Plain(d) && Target(js, d).Some?) { assert Whole(s.fields[d]); }
    }
  }

  lemma EntriesKept(js: seq<Json>, rs: seq<Json>, d: string)
    requires Manifests(js) && AllWhole(js) && Outcome(js, rs) && OurVersion(js, d).None?
    ensures Kept(rs, d)
  {
    hide Outcome, Manifests, AllWhole;
    forall i, s | At(rs, i, s) ensures KeptIn(Field(rs[i], s), d) {
      if Field(rs[i], s).Record? && d in Field(rs[i], s).fields {
        OutcomeLengths(js, rs);
        RoundAt(js, rs, i);
        EntryWhole(js, rs, i, s, d);
        if Field(rs[i], s).fields[d] != Undefined { WholeIsShown(Field(rs[i], s).fields[d]); }
      }
    }
  }

  lemma TargetSaved(js: seq<Json>, rs: seq<Json>, d: string)
    requires Manifests(js) && AllWhole(js) && Outcome(js, rs)
    ensures Target(Saved(rs), d) == Target(rs, d)
  {
    OurVersionSaved(js, rs, d, |rs|);
    OurVersionKept(js, rs, d, |js|);
    assert js[..|js|] == js && rs[..|rs|] == rs && Saved(rs)[..|rs|] == Saved(rs);
    if OurVersion(js, d).None? {
      EntriesKept(js, rs, d);
      forall i | 0 <= i < |rs| ensures rs[i].Record? { RoundAt(js, rs, i); }
      VotesSaved(rs, d, |rs|);
    }
    hide Votes, Outcome, Manifests, AllWhole, Saved;
  }

  // ---------------------------------------------------------------- what the next run reports

  lemma SavedAt(js: seq<Json>, rs: seq<Json>, i: int, section: string)
    requires Manifests(js) && Outcome(js, rs) && 0 <= i < |rs| && section in SECTIONS
    ensures At(js, i, section) && At(rs, i, section) && At(Saved(rs), i, section) && WellFormed(Field(rs[i], section))
    ensures Saved(rs)[i] == Shown(rs[i]) && Field(Saved(rs)[i], section) == Shown(Field(rs[i], section))
  {
    OutcomeLengths(js, rs);
    RoundAt(js, rs, i);
    OutcomeWellFormed(js, rs);
    ShownField(rs[i], section);
  }

  lemma MismatchSaved(js: seq<Json>, rs: seq<Json>, i: int, section: string, d: string)
    requires Manifests(js) && AllWhole(js) && Outcome(js, rs) && At(rs, i, section)
    ensures Mismatch(Saved(rs)[i], section, d, Saved(rs)) == [] <==> Mismatch(rs[i], section, d, rs) == []
  {
    hide *;
    AtIs(rs, i, section);
    TargetSaved(js, rs, d);
    SavedAt(js, rs, i, section);
    MismatchAt(rs[i], section, d, rs);
    MismatchAt(Saved(rs)[i], section, d, Saved(rs));
    ShownGet(rs[i], [section] + Parts(d));
    EntryWellFormed(rs[i], section, Parts(d));
    if Target(rs, d).Some? { SameShown(Get(rs[i], [section] + Parts(d)), Target(rs, d).value); }
  }

  lemma EntryWellFormed(j: Json, section: string, path: seq<string>)
    requires j.Record? && WellFormed(Field(j, section))
    ensures WellFormed(Get(j, [section] + path))
  {
    assert ([section] + path)[1..] == path;
    GetWellFormed(Field(j, section), path);
  }

  /** An entry that is not written had the version that it should have. */
  lemma DroppedSilent(js: seq<Json>, rs: seq<Json>, i: int, section: string, d: string)
    requires Manifests(js) && AllWhole(js) && Outcome(js, rs) && At(rs, i, section)
    requires Field(rs[i], section).Record? && d in Field(rs[i], section).fields
    requires Field(rs[i], section).fields[d] == Undefined
    ensures Mismatch(rs[i], section, d, rs) == []
  {
    SavedAt(js, rs, i, section);
    hide Outcome, Manifests, AllWhole, Votes, Mismatch, Get;
    EntryWhole(js, rs, i, section, d);
    OurVersionKept(js, rs, d, |js|);
    assert js[..|js|] == js && rs[..|rs|] == rs;
    MismatchAt(rs[i], section, d, rs);
    GetEntry(rs[i], section, d);
  }

  lemma SilentSectionSaved(js: seq<Json>, rs: seq<Json>, i: int, section: string)
    requires Manifests(js) && AllWhole(js) && Outcome(js, rs) && At(rs, i, section)
    ensures At(Saved(rs), i, section) && (SilentSection(Saved(rs), i, section) <==> SilentSection(rs, i, section))
  {
    SavedAt(js, rs, i, section);
    var t := Field(rs[i], section);
    if t.Record? {
      hide Outcome, Manifests, AllWhole, Mismatch, Saved;
      assert forall d :: d in Shown(t).fields <==> d in t.fields && t.fields[d] != Undefined;
      forall d | d in t.fields
        ensures Mismatch(Saved(rs)[i], section, d, Saved(rs)) == [] <==> Mismatch(rs[i], section, d, rs) == []
        ensures t.fields[d] == Undefined ==> Mismatch(rs[i], section, d, rs) == []
      {
        MismatchSaved(js, rs, i, section, d);
        if t.fields[d] == Undefined { DroppedSilent(js, rs, i, section, d); }
      }
    }
  }

  lemma SavedWellFormed(js: seq<Json>, rs: seq<Json>)
    requires Manifests(js) && Outcome(js, rs)
    ensures SectionsWellFormed(Saved(rs)) && SectionsWellFormed(rs)
  {
    OutcomeWellFormed(js, rs);
    hide Outcome, Manifests;
    forall i | 0 <= i < |rs|
      ensures Saved(rs)[i].Record? && forall s :: s in SECTIONS ==> WellFormed(Field(Saved(rs)[i], s))
    {
      hide Saved;
      forall s | s in SECTIONS ensures WellFormed(Field(Shown(rs[i]), s)) {
        ShownField(rs[i], s);
        ShownWellFormed(Field(rs[i], s));
      }
    }
  }

  /** The rule says the same about the packages as they are and as they are read back. */
  lemma SilentSaved(js: seq<Json>, rs: seq<Json>)
    requires Manifests(js) && AllWhole(js) && Outcome(js, rs)
    ensures Silent(Saved(rs)) <==> Silent(rs)
  {
    SavedWellFormed(js, rs);
    SilentSections(rs);
    SilentSections(Saved(rs));
    hide Silent, SilentSection, Outcome, Manifests, AllWhole, SectionsWellFormed;
    forall i, s | At(rs, i, s) || At(Saved(rs), i, s)
      ensures At(rs, i, s) && At(Saved(rs), i, s) && (SilentSection(Saved(rs), i, s) <==> SilentSection(rs, i, s))
    {
      SavedAt(js, rs, i, s);
      SilentSectionSaved(js, rs, i, s);
    }
  }

  // ---------------------------------------------------------------- what the next run can count

  /** A dependency with an inherited name gets no version from the fixes, or asks for any. */
  ghost predicate StaysCountableIn(s: Json, js: seq<Json>) {
    s.Record? ==> forall d :: d in s.fields && IsInherited(d) ==> Target(js, d) in {Some(Undefined), Some(Text("*"))}
  }

  ghost predicate StaysCountable(js: seq<Json>) {
    forall i, s :: At(js, i, s) ==> StaysCountableIn(Field(js[i], s), js)
  }

  lemma {:induction false} InheritedOurs(js: seq<Json>, d: string)
    requires IsInherited(d)
    ensures OurVersion(js, d).Some? && Target(js, d) == OurVersion(js, d)
  {
    hide IsInherited;
    if js != [] { InheritedOurs(js[..|js| - 1], d); }
  }

  lemma InheritedPlain(d: string)
    requires IsInherited(d)
    ensures Plain(d)
  {
  }

  lemma AstrayHeadMakeable(j: Json, r: Json, js: seq<Json>, section: string, d: string)
    requires Round(j, r, js) && section in SECTIONS && Field(j, section).Record? && d in Field(j, section).fields
             && Astray(js, d)
    ensures !IsInherited(Parts(d)[0])
  {
    var s := Field(j, section);
    hide IsInherited;
    FixesSucceedIff(j, js);
    assert WellFormed(s) && FixableSection(s, js);
    var k :| 0 <= k < |s.keys| && s.keys[k] == d;
    assert FixableEntry(s, js, k);
    PlainParts(d);
    assert !IsInherited(Parts(d)[0]);
  }

  /** No stray record is made under an inherited name. */
  lemma NoInheritedStray(j: Json, r: Json, js: seq<Json>, section: string, a: string)
    requires Round(j, r, js) && section in SECTIONS && StrayHead(Field(j, section), js, a)
    ensures !IsInherited(a)
  {
    assert j.Record?;
    hide IsInherited, Astray, Round;
    var d :| d in Field(j, section).fields && Astray(js, d) && Parts(d)[0] == a;
    AstrayHeadMakeable(j, r, js, section, d);
  }

  lemma CountableSectionSaved(js: seq<Json>, rs: seq<Json>, i: int, section: string)
    requires Manifests(js) && Outcome(js, rs) && At(js, i, section)
    ensures At(rs, i, section)
    ensures CountableSection(Shown(Field(rs[i], section))) <==> StaysCountableIn(Field(js[i], section), js)
  {
    OutcomeLengths(js, rs);
    RoundAt(js, rs, i);
    SectionKeys(js[i], rs[i], js, section);
    var s, t := Field(js[i], section), Field(rs[i], section);
    hide IsInherited, Round, Outcome, Manifests, Target, StrayHead;
    if s.Record? {
      forall d | IsInherited(d)
        ensures d in t.fields <==> d in s.fields
        ensures d in s.fields ==> Target(js, d) == Some(t.fields[d]) && Shown(t.fields[d]) == t.fields[d]
      {
        if StrayHead(s, js, d) { NoInheritedStray(js[i], rs[i], js, section, d); }
        if d in s.fields {
          InheritedPlain(d);
          InheritedOurs(js, d);
          EntryAfter(js[i], rs[i], js, section, d);
          GetEntry(rs[i], section, d);
          TargetFlat(js, d);
          ShownFlat(t.fields[d]);
        }
      }
      assert forall d :: d in Shown(t).fields <==> d in t.fields && t.fields[d] != Undefined;
    }
  }

  lemma CountableSaved(js: seq<Json>, rs: seq<Json>)
    requires Manifests(js) && Outcome(js, rs)
    ensures AllCountable(Saved(rs)) <==> StaysCountable(js)
  {
    hide Outcome, Manifests, CountableSection, StaysCountableIn;
    OutcomeLengths(js, rs);
    forall i, s | 0 <= i < |js| && s in SECTIONS
      ensures At(js, i, s) && Saved(rs)[i].Record?
      ensures CountableSection(Field(Saved(rs)[i], s)) <==> StaysCountableIn(Field(js[i], s), js)
    {
      SavedAt(js, rs, i, s);
      CountableSectionSaved(js, rs, i, s);
    }
    forall i | 0 <= i < |js| ensures Saved(rs)[i].Record? { assert SECTIONS[0] in SECTIONS; }
  }

  // ---------------------------------------------------------------- the next run

  ghost predicate Documents(js: seq<Json>) {
    forall i :: 0 <= i < |js| ==> js[i].Record? && Document(js[i])
  }

  lemma ShownNames(s: Json)
    requires NamesNoPrototype(s) && (s.Record? || Keyless(s))
    ensures NamesNoPrototype(Shown(s)) && (Shown(s).Record? || Keyless(Shown(s)))
  {
  }

  /** The next run can read the documents. */
  lemma SavedDocument(js: seq<Json>, rs: seq<Json>, i: int)
    requires Manifests(js) && Outcome(js, rs) && 0 <= i < |rs|
    ensures Saved(rs)[i].Record? && Document(Saved(rs)[i]) && Whole(Saved(rs)[i])
  {
    OutcomeLengths(js, rs);
    OutcomeDocument(js, rs, i);
    var r := rs[i];
    hide Outcome, Manifests;
    ShownWellFormed(r);
    ShownIsWhole(r);
    ShownField(r, "name");
    ShownFlat(Field(r, "name"));
    hide WellFormed, NamesNoPrototype, Whole;
    forall s | s in SECTIONS
      ensures NamesNoPrototype(Field(Shown(r), s)) && (Field(Shown(r), s).Record? || Keyless(Field(Shown(r), s)))
    {
      ShownField(r, s);
      ShownNames(Field(r, s));
    }
  }

  /** A run over the files in which the fixed packages were saved neither throws nor reports
      anything if and only if the fixes left nothing to object to and nothing that cannot be counted. */
  lemma NextRunIff(js: seq<Json>, rs: seq<Json>)
    requires Manifests(js) && AllWhole(js) && Outcome(js, rs)
    ensures Documents(Saved(rs)) && AllWhole(Saved(rs))
    ensures AllCountable(Saved(rs)) && Silent(Saved(rs)) <==> StaysCountable(js) && Quiet(js)
  {
    forall i | 0 <= i < |rs| ensures Saved(rs)[i].Record? && Document(Saved(rs)[i]) && Whole(Saved(rs)[i]) {
      SavedDocument(js, rs, i);
    }
    hide *;
    SilentSaved(js, rs);
    SilentIffQuiet(js, rs);
    CountableSaved(js, rs);
    SavedAll(rs);
  }

  lemma SavedAll(rs: seq<Json>)
    requires forall i ::
               0 <= i < |rs| ==> Saved(rs)[i].Record? && Document(Saved(rs)[i]) && Whole(Saved(rs)[i])
    ensures Documents(Saved(rs)) && AllWhole(Saved(rs))
  {
    hide Document, Whole;
  }
}
