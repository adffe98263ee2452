/** What a second round of the version rule finds after the fixes of a first one. */
module SecondRound {
  import opened Options
  import opened JsonValues
  import opened VersionVoting
  import opened VersionFixes
  import opened FixOutcomes
  import opened DottedNames
  import opened FixedSections

  /** All fixes succeed and turn the packages `js` into `rs`. */
  ghost predicate Outcome(js: seq<Json>, rs: seq<Json>) {
    |rs| == |js| && forall i :: 0 <= i < |js| ==> OutcomeAt(js, rs, i)
  }

  ghost predicate OutcomeAt(js: seq<Json>, rs: seq<Json>, i: nat)
    requires i < |js| == |rs|
  {
    js[i].Record? && Apply(js[i], Reports(js[i], js)) == Some(rs[i])
  }

  /** The rule has nothing to say about any of the packages. */
  ghost predicate Silent(rs: seq<Json>) {
    forall i :: 0 <= i < |rs| ==> rs[i].Record? && Reports(rs[i], rs) == []
  }

  /** A dependency section of one of the packages. */
  ghost predicate At(js: seq<Json>, i: int, section: string) {
    0 <= i < |js| && js[i].Record? && section in SECTIONS
  }

  /** Before the fixes, no path of an astray dependency leads through the entry `a` of a section. */
  ghost predicate NoStray(js: seq<Json>, a: string) {
    forall i, s :: At(js, i, s) ==> !StrayHead(Field(js[i], s), js, a)
  }

  // ---------------------------------------------------------------- the version that each use should have

  /** What is found where a dotted name is taken to be is the version that it should have. */
  ghost predicate QuietEntry(s: Json, js: seq<Json>, d: string) {
    !Plain(d) && Target(js, d).Some? ==>
      if Astray(js, d) then !Covered(s, js, d) else Covered(s, js, d) || !Beyond(s, js, d)
  }

  /** The record made at `a` is what all packages have for a dependency `a`, and none is ours. */
  ghost predicate QuietStray(js: seq<Json>, i: int, section: string, a: string)
    requires At(js, i, section)
  {
    && OurVersion(js, a).None?
    && forall k, t :: At(js, k, t) ==>
         && !(Field(js[k], t).Record? && a in Field(js[k], t).fields)
         && (StrayHead(Field(js[k], t), js, a) ==> Same(Stray(js[i], section, a, js), Stray(js[k], t, a, js)))
  }

  ghost predicate QuietSection(js: seq<Json>, i: int, section: string)
    requires At(js, i, section)
  {
    var s := Field(js[i], section);
    s.Record? ==>
      && (forall d :: d in s.fields ==> QuietEntry(s, js, d))
      && (forall a :: StrayHead(s, js, a) ==> QuietStray(js, i, section, a))
  }

  /** The fixes leave nothing that a second round would object to. */
  ghost predicate Quiet(js: seq<Json>) {
    forall i, s :: At(js, i, s) ==> QuietSection(js, i, s)
  }

  // ---------------------------------------------------------------- targets after the fixes

  lemma RoundAt(js: seq<Json>, rs: seq<Json>, i: int)
    requires Manifests(js) && Outcome(js, rs) && 0 <= i < |js|
    ensures Round(js[i], rs[i], js) && js[i].Record? && rs[i].Record?
            && forall s :: s in SECTIONS ==> At(js, i, s) && At(rs, i, s)
  {
    assert OutcomeAt(js, rs, i);
    NoSection("name");
    OtherFieldKept(js[i], rs[i], js, "name");
  }

  lemma NoSection(k: string)
    requires |k| < 12
    ensures k !in SECTIONS
  {
    assert SECTIONS[0] == "dependencies" && SECTIONS[1] == "devDependencies";
    assert |"dependencies"| == 12 && |"devDependencies"| == 15;
  }

  lemma OurVersionLast(js: seq<Json>, dep: string, n: nat)
    requires 0 < n <= |js| && js[n - 1].Record?
    ensures var j := js[n - 1];
            OurVersion(js[..n], dep)
            == if KeyOf(Field(j, "name")) == dep then Some(Field(j, "version")) else OurVersion(js[..n - 1], dep)
  {
    assert js[..n][..n - 1] == js[..n - 1];
  }

  lemma {:induction false} OurVersionKept(js: seq<Json>, rs: seq<Json>, dep: string, n: nat)
    requires Manifests(js) && Outcome(js, rs) && n <= |js|
    ensures |js| == |rs| && OurVersion(rs[..n], dep) == OurVersion(js[..n], dep)
  {
    assert |js| == |rs|;
    if n == 0 {
      assert js[..n] == rs[..n];
    } else {
      hide *;
      OurVersionKept(js, rs, dep, n - 1);
      RoundAt(js, rs, n - 1);
      NoSection("name");
      NoSection("version");
      OtherFieldKept(js[n - 1], rs[n - 1], js, "name");
      OtherFieldKept(js[n - 1], rs[n - 1], js, "version");
      OurVersionLast(js, dep, n);
      OurVersionLast(rs, dep, n);
    }
  }

  /** The votes afterwards are for the version that there should be, if there is one. */
  ghost predicate Follow(before: seq<Json>, after: seq<Json>, target: Option<Json>) {
    if target.None? then after == before
    else
      && (forall v :: v in after ==> v == target.value)
      && (before != [] && target.value != Text("*") ==> after != [])
  }

  lemma FollowBoth(a: seq<Json>, b: seq<Json>, a': seq<Json>, b': seq<Json>, target: Option<Json>)
    requires Follow(a, a', target) && Follow(b, b', target)
    ensures Follow(a + b, a' + b', target)
  {
  }

  lemma VotesInAfter(j: Json, r: Json, js: seq<Json>, section: string, dep: string)
    requires Round(j, r, js) && r.Record? && section in SECTIONS && !StrayHead(Field(j, section), js, dep)
    ensures var before, after := VotesIn(Field(j, section), dep), VotesIn(Field(r, section), dep);
            if Plain(dep) then Follow(before, after, Target(js, dep)) else after == before
  {
    var s, t := Field(j, section), Field(r, section);
    hide *;
    SectionKeys(j, r, js, section);
    if s.Record? && dep in s.fields {
      EntryAfter(j, r, js, section, dep);
      GetEntry(r, section, dep);
      EntryThere(t, dep);
      VotesFollow(s, t, js, dep);
    } else {
      NoVotesFollow(s, t, js, dep);
    }
  }

  lemma EntryThere(s: Json, dep: string)
    requires s.Record? && dep in s.fields
    ensures Field(s, dep) == s.fields[dep]
  {
  }

  lemma VotesFollow(s: Json, t: Json, js: seq<Json>, dep: string)
    requires s.Record? && t.Record? && dep in s.fields && dep in t.fields
    requires t.fields[dep] == NewVersion(js, dep, s.fields[dep])
    ensures if Plain(dep) then Follow(VotesIn(s, dep), VotesIn(t, dep), Target(js, dep))
            else VotesIn(t, dep) == VotesIn(s, dep)
  {
    hide Target, Plain;
  }

  lemma NoVotesFollow(s: Json, t: Json, js: seq<Json>, dep: string)
    requires (s.Record? ==> dep !in s.fields) && (t.Record? ==> dep !in t.fields)
    ensures if Plain(dep) then Follow(VotesIn(s, dep), VotesIn(t, dep), Target(js, dep))
            else VotesIn(t, dep) == VotesIn(s, dep)
  {
    hide Target, Plain;
  }

  lemma {:induction false} VotesAfter(js: seq<Json>, rs: seq<Json>, dep: string, n: nat)
    requires Manifests(js) && Outcome(js, rs) && NoStray(js, dep) && n <= |js|
    ensures var before, after := Votes(js[..n], dep), Votes(rs[..n], dep);
            if Plain(dep) then Follow(before, after, Target(js, dep)) else after == before
  {
    if n > 0 {
      assert js[..n][..n - 1] == js[..n - 1] && rs[..n][..n - 1] == rs[..n - 1];
      VotesAfter(js, rs, dep, n - 1);
      RoundAt(js, rs, n - 1);
      var j, r := js[n - 1], rs[n - 1];
      assert At(js, n - 1, SECTIONS[0]) && At(js, n - 1, SECTIONS[1]);
      hide Manifests, Outcome, Round, StrayHead, Target, VotesIn, Follow;
      VotesInAfter(j, r, js, SECTIONS[0], dep);
      VotesInAfter(j, r, js, SECTIONS[1], dep);
      if Plain(dep) {
        FollowBoth(VotesIn(Field(j, SECTIONS[0]), dep), VotesIn(Field(j, SECTIONS[1]), dep),
                   VotesIn(Field(r, SECTIONS[0]), dep), VotesIn(Field(r, SECTIONS[1]), dep), Target(js, dep));
        FollowBoth(Votes(js[..n - 1], dep), VotesOf(j, dep), Votes(rs[..n - 1], dep), VotesOf(r, dep), Target(js, dep));
      }
    } else {
      assert js[..0] == [] && rs[..0] == [];
    }
  }

  lemma {:induction false} NoVotesForAny(js: seq<Json>, dep: string)
    ensures Text("*") !in Votes(js, dep)
  {
    if js != [] { NoVotesForAny(js[..|js| - 1], dep); }
  }

  lemma TargetVotedFor(js: seq<Json>, dep: string)
    ensures OurVersion(js, dep).None? ==> (Target(js, dep).Some? <==> Votes(js, dep) != [])
    ensures OurVersion(js, dep).None? && Target(js, dep).Some? ==> Target(js, dep).value in Votes(js, dep)
  {
    var votes := Votes(js, dep);
    if votes != [] { WinnerHasMost(votes, Undefined); }
  }

  /** The fixes leave the version that a dependency should have as it was, unless a stray record
      is made for its name somewhere. */
  lemma TargetKept(js: seq<Json>, rs: seq<Json>, dep: string)
    requires Manifests(js) && Outcome(js, rs) && NoStray(js, dep)
    ensures Target(rs, dep) == Target(js, dep)
  {
    OurVersionKept(js, rs, dep, |js|);
    VotesAfter(js, rs, dep, |js|);
    assert js[..|js|] == js && rs[..|rs|] == rs;
    TargetVotedFor(js, dep);
    TargetVotedFor(rs, dep);
    NoVotesForAny(js, dep);
    hide Votes, Outcome, NoStray, Manifests;
  }

  lemma DottedNoStray(js: seq<Json>, dep: string)
    requires !Plain(dep)
    ensures NoStray(js, dep)
  {
    forall i, s | At(js, i, s) ensures !StrayHead(Field(js[i], s), js, dep) {
      if StrayHead(Field(js[i], s), js, dep) {
        var d :| d in Field(js[i], s).fields && Astray(js, d) && Parts(d)[0] == dep;
        PlainParts(d);
      }
    }
  }

  // ---------------------------------------------------------------- which entries are reported

  lemma {:induction false} NoMismatches(j: Json, section: string, deps: seq<string>, js: seq<Json>)
    ensures Mismatches(j, section, deps, js) == [] <==> forall d :: d in deps ==> Mismatch(j, section, d, js) == []
  {
    hide Mismatch;
    if deps != [] {
      NoMismatches(j, section, deps[..|deps| - 1], js);
      assert deps == deps[..|deps| - 1] + [deps[|deps| - 1]];
    }
  }

  /** Nothing is reported about the entries of a section. */
  ghost predicate SilentSection(rs: seq<Json>, i: int, section: string)
    requires At(rs, i, section)
  {
    var t := Field(rs[i], section);
    t.Record? ==> forall d :: d in t.fields ==> Mismatch(rs[i], section, d, rs) == []
  }

  ghost predicate AllSilent(rs: seq<Json>) {
    forall i, s :: At(rs, i, s) ==> SilentSection(rs, i, s)
  }

  lemma SilentEntry(rs: seq<Json>, i: int, section: string, d: string)
    requires AllSilent(rs) && At(rs, i, section)
    requires Field(rs[i], section).Record? && d in Field(rs[i], section).fields
    ensures Mismatch(rs[i], section, d, rs) == []
  {
    assert SilentSection(rs, i, section);
    hide Mismatch, AllSilent;
  }

  /** The rule can read the sections of all packages. */
  ghost predicate SectionsWellFormed(rs: seq<Json>) {
    forall i :: 0 <= i < |rs| ==> rs[i].Record? && forall s :: s in SECTIONS ==> WellFormed(Field(rs[i], s))
  }

  lemma OutcomeWellFormed(js: seq<Json>, rs: seq<Json>)
    requires Manifests(js) && Outcome(js, rs)
    ensures SectionsWellFormed(rs)
  {
    forall i | 0 <= i < |rs| ensures rs[i].Record? && forall s :: s in SECTIONS ==> WellFormed(Field(rs[i], s)) {
      RoundAt(js, rs, i);
      assert WellFormed(js[i]);
      hide Outcome, Manifests, Round, StrayHead;
      forall s | s in SECTIONS ensures WellFormed(Field(rs[i], s)) { SectionKeys(js[i], rs[i], js, s); }
    }
  }

  lemma SilentSections(rs: seq<Json>)
    requires SectionsWellFormed(rs)
    ensures Silent(rs) <==> AllSilent(rs)
  {
    forall i | 0 <= i < |rs|
      ensures rs[i].Record? && At(rs, i, SECTIONS[0]) && At(rs, i, SECTIONS[1])
      ensures Reports(rs[i], rs) == [] <==> SilentSection(rs, i, SECTIONS[0]) && SilentSection(rs, i, SECTIONS[1])
    {
      hide Mismatch;
      SilentIfNoMismatches(rs, i, SECTIONS[0]);
      SilentIfNoMismatches(rs, i, SECTIONS[1]);
    }
    hide Reports, SilentSection, SectionsWellFormed;
  }

  lemma SilentIfNoMismatches(rs: seq<Json>, i: int, section: string)
    requires At(rs, i, section) && WellFormed(Field(rs[i], section))
    ensures SectionReports(rs[i], section, rs) == [] <==> SilentSection(rs, i, section)
  {
    var t := Field(rs[i], section);
    if t.Record? { NoMismatches(rs[i], section, t.keys, rs); }
    hide Mismatch;
  }

  lemma MismatchAt(j: Json, section: string, d: string, js: seq<Json>)
    requires section in SECTIONS
    ensures Mismatch(j, section, d, js) == [] <==>
            (Target(js, d).Some? ==> Same(Get(j, [section] + Parts(d)), Target(js, d).value))
    ensures Plain(d) ==> [section] + Parts(d) == [section, d]
  {
    DepPathParts(section, d);
  }

  /** The entry of a plain name that is no stray record has the version that it should have. */
  lemma PlainSilent(js: seq<Json>, rs: seq<Json>, i: int, section: string, d: string)
    requires Manifests(js) && Outcome(js, rs) && At(js, i, section) && Plain(d) && NoStray(js, d)
    requires Field(js[i], section).Record? && d in Field(js[i], section).fields
    ensures Mismatch(rs[i], section, d, rs) == []
  {
    RoundAt(js, rs, i);
    TargetKept(js, rs, d);
    EntryAfter(js[i], rs[i], js, section, d);
    MismatchAt(rs[i], section, d, rs);
    hide Target, Mismatch, Outcome, Manifests, NoStray;
  }

  lemma DottedSilent(js: seq<Json>, rs: seq<Json>, i: int, section: string, d: string)
    requires Manifests(js) && Outcome(js, rs) && At(js, i, section) && !Plain(d)
    requires Field(js[i], section).Record? && d in Field(js[i], section).fields
    ensures Mismatch(rs[i], section, d, rs) == [] <==> QuietEntry(Field(js[i], section), js, d)
  {
    RoundAt(js, rs, i);
    DottedNoStray(js, d);
    TargetKept(js, rs, d);
    MismatchAt(rs[i], section, d, rs);
    TargetFlat(js, d);
    hide Target, Mismatch, Outcome, Manifests, NoStray, Covered, Beyond, Parts;
    if Target(js, d).Some? {
      SameAsPlain(Get(rs[i], [section] + Parts(d)), Target(js, d).value);
      if Astray(js, d) {
        AstrayAfter(js[i], rs[i], js, section, d);
      } else {
        UnversionedAfter(js[i], rs[i], js, section, d);
      }
    }
  }

  // ---------------------------------------------------------------- stray records

  lemma StrayAt(js: seq<Json>, rs: seq<Json>, i: int, section: string, a: string)
    requires Manifests(js) && Outcome(js, rs) && At(js, i, section) && StrayHead(Field(js[i], section), js, a)
    ensures At(rs, i, section) && Plain(a) && Field(rs[i], section).Record? && a in Field(rs[i], section).fields
    ensures var x := Stray(js[i], section, a, js);
            x.Record? && Field(rs[i], section).fields[a] == x && Get(rs[i], [section, a]) == x && x in Votes(rs, a)
  {
    RoundAt(js, rs, i);
    SectionKeys(js[i], rs[i], js, section);
    StrayAfter(js[i], rs[i], js, section, a);
    GetEntry(rs[i], section, a);
    VoteFrom(rs, i, section, a);
  }

  lemma {:induction false} VoteFrom(xs: seq<Json>, i: int, section: string, dep: string)
    requires At(xs, i, section) && Field(xs[i], section).Record? && dep in Field(xs[i], section).fields
    requires Field(xs[i], section).fields[dep] != Text("*")
    ensures Field(xs[i], section).fields[dep] in Votes(xs, dep)
  {
    if i < |xs| - 1 {
      VoteFrom(xs[..|xs| - 1], i, section, dep);
    } else {
      assert section == SECTIONS[0] || section == SECTIONS[1];
    }
  }

  lemma {:induction false} VoteSource(xs: seq<Json>, dep: string, v: Json) returns (i: int, section: string)
    requires v in Votes(xs, dep)
    ensures At(xs, i, section) && Field(xs[i], section).Record? && dep in Field(xs[i], section).fields
    ensures Field(xs[i], section).fields[dep] == v
  {
    var init, last := xs[..|xs| - 1], |xs| - 1;
    if v in Votes(init, dep) {
      i, section := VoteSource(init, dep, v);
    } else {
      i, section := last, if v in VotesIn(Field(xs[last], SECTIONS[0]), dep) then SECTIONS[0] else SECTIONS[1];
    }
  }

  /** An entry of the same name that was there before holds no record afterwards. */
  lemma EntryFlat(js: seq<Json>, rs: seq<Json>, i: int, section: string, a: string)
    requires Manifests(js) && Outcome(js, rs) && At(js, i, section) && Field(js[i], section).Record?
    requires a in Field(js[i], section).fields
    ensures At(rs, i, section) && Field(rs[i], section).Record? && a in Field(rs[i], section).fields
    ensures !Get(rs[i], [section, a]).Record?
  {
    hide *;
    AtIs(js, i, section);
    RoundAt(js, rs, i);
    AtIs(rs, i, section);
    SectionKeys(js[i], rs[i], js, section);
    EntryAfter(js[i], rs[i], js, section, a);
    NewVersionFlat(js, i, section, a);
  }

  lemma NewVersionFlat(js: seq<Json>, i: int, section: string, a: string)
    requires Manifests(js) && At(js, i, section) && Field(js[i], section).Record? && a in Field(js[i], section).fields
    ensures !NewVersion(js, a, Field(js[i], section).fields[a]).Record?
  {
    TargetFlat(js, a);
    assert Manifest(js[i]);
    hide Target;
  }

  /** If stray records agree and are all there is for their name, they are not reported. */
  lemma QuietStraySilent(js: seq<Json>, rs: seq<Json>, i: int, section: string, a: string)
    requires Manifests(js) && Outcome(js, rs) && At(js, i, section) && StrayHead(Field(js[i], section), js, a)
    requires QuietStray(js, i, section, a)
    ensures Mismatch(rs[i], section, a, rs) == []
  {
    StrayAt(js, rs, i, section, a);
    OurVersionKept(js, rs, a, |js|);
    assert js[..|js|] == js && rs[..|rs|] == rs;
    TargetVotedFor(rs, a);
    MismatchAt(rs[i], section, a, rs);
    hide Target, Mismatch, Votes, StrayHead, Manifests, Stray;
    var k, t := VoteSource(rs, a, Target(rs, a).value);
    RoundAt(js, rs, k);
    SectionKeys(js[k], rs[k], js, t);
    assert At(js, k, t);
    StrayAt(js, rs, k, t, a);
  }

  lemma SameRecords(x: Json, y: Json, z: Json)
    requires Same(x, y) && Same(z, y)
    ensures Same(x, z) && (x.Record? <==> z.Record?)
  {
    assert Shown(x).Record? <==> Shown(z).Record?;
  }

  /** If the record `x` is not reported under the name `a`, then neither are only records like it. */
  lemma SilentStrayOthers(js: seq<Json>, rs: seq<Json>, a: string, x: Json, k: int, t: string)
    requires Manifests(js) && Outcome(js, rs) && AllSilent(rs) && At(js, k, t)
    requires x.Record? && Target(rs, a).Some? && Same(x, Target(rs, a).value) && Plain(a)
    ensures !(Field(js[k], t).Record? && a in Field(js[k], t).fields)
    ensures StrayHead(Field(js[k], t), js, a) ==> Same(x, Stray(js[k], t, a, js))
  {
    hide *;
    AtIs(js, k, t);
    var v := Target(rs, a).value;
    if Field(js[k], t).Record? && a in Field(js[k], t).fields {
      EntryFlat(js, rs, k, t, a);
      AtIs(rs, k, t);
      SilentEntry(rs, k, t, a);
      MismatchAt(rs[k], t, a, rs);
      SameRecords(x, v, Get(rs[k], [t, a]));
    }
    if StrayHead(Field(js[k], t), js, a) {
      StrayAt(js, rs, k, t, a);
      AtIs(rs, k, t);
      SilentEntry(rs, k, t, a);
      MismatchAt(rs[k], t, a, rs);
      SameRecords(x, v, Get(rs[k], [t, a]));
    }
  }

  lemma AtIs(js: seq<Json>, i: int, section: string)
    requires At(js, i, section)
    ensures 0 <= i < |js| && js[i].Record? && section in SECTIONS
  {
  }

  /** A stray record that is not reported is all there is for its name. */
  lemma SilentStrayQuiet(js: seq<Json>, rs: seq<Json>, i: int, section: string, a: string)
    requires Manifests(js) && Outcome(js, rs) && At(js, i, section) && StrayHead(Field(js[i], section), js, a)
    requires AllSilent(rs)
    ensures QuietStray(js, i, section, a)
  {
    SilentStrayTarget(js, rs, i, section, a);
    hide Mismatch, Votes, StrayHead, Manifests, Stray, Outcome, Target, Same, AllSilent, At;
    AtIs(js, i, section);
    forall k, t | At(js, k, t)
      ensures 0 <= k < |js| && js[k].Record? && !(Field(js[k], t).Record? && a in Field(js[k], t).fields)
      ensures StrayHead(Field(js[k], t), js, a) ==> Same(Stray(js[i], section, a, js), Stray(js[k], t, a, js))
    {
      AtIs(js, k, t);
      SilentStrayOthers(js, rs, a, Stray(js[i], section, a, js), k, t);
    }
  }

  lemma SilentStrayTarget(js: seq<Json>, rs: seq<Json>, i: int, section: string, a: string)
    requires Manifests(js) && Outcome(js, rs) && At(js, i, section) && StrayHead(Field(js[i], section), js, a)
    requires AllSilent(rs)
    ensures OurVersion(js, a).None? && Target(rs, a).Some? && Plain(a)
    ensures var x := Stray(js[i], section, a, js); x.Record? && Same(x, Target(rs, a).value)
  {
    hide *;
    AtIs(js, i, section);
    StrayAt(js, rs, i, section, a);
    AtIs(rs, i, section);
    OutcomeLengths(js, rs);
    OurVersionKept(js, rs, a, |js|);
    assert js[..|js|] == js && rs[..|rs|] == rs;
    OurVersionFlat(js, a);
    SilentEntry(rs, i, section, a);
    MismatchAt(rs[i], section, a, rs);
    TargetVotedFor(rs, a);
    var x := Stray(js[i], section, a, js);
    assert Target(rs, a).Some? by { VotedOrOurs(rs, a, x); }
    if OurVersion(js, a).Some? {
      TargetOurs(rs, a);
      RecordLike(x, Target(rs, a).value);
      assert false;
    }
  }

  lemma OutcomeLengths(js: seq<Json>, rs: seq<Json>)
    requires Outcome(js, rs)
    ensures |js| == |rs|
  {
  }

  lemma VotedOrOurs(js: seq<Json>, dep: string, v: Json)
    requires v in Votes(js, dep)
    ensures Target(js, dep).Some?
  {
    hide Votes;
    TargetVotedFor(js, dep);
  }

  lemma TargetOurs(js: seq<Json>, dep: string)
    requires OurVersion(js, dep).Some?
    ensures Target(js, dep) == OurVersion(js, dep)
  {
  }

  lemma RecordLike(x: Json, y: Json)
    requires Same(x, y)
    ensures x.Record? <==> y.Record?
  {
    assert Shown(x).Record? <==> Shown(y).Record?;
  }

  // ---------------------------------------------------------------- when the second round is silent

  lemma QuietSilent(js: seq<Json>, rs: seq<Json>, i: int, section: string)
    requires Manifests(js) && Outcome(js, rs) && Quiet(js) && At(rs, i, section)
    ensures SilentSection(rs, i, section)
  {
    RoundAt(js, rs, i);
    SectionKeys(js[i], rs[i], js, section);
    var s, t := Field(js[i], section), Field(rs[i], section);
    assert At(js, i, section) && QuietSection(js, i, section);
    hide Mismatch, Target, Manifests, StrayHead, Outcome, Round, QuietStray, QuietEntry;
    if t.Record? {
      forall d | d in t.fields ensures Mismatch(rs[i], section, d, rs) == [] {
        if d !in s.fields {
          QuietStraySilent(js, rs, i, section, d);
        } else if Plain(d) {
          QuietNoStray(js, i, section, d);
          PlainSilent(js, rs, i, section, d);
        } else {
          DottedSilent(js, rs, i, section, d);
        }
      }
    }
  }

  lemma QuietNoStray(js: seq<Json>, i: int, section: string, d: string)
    requires Quiet(js) && At(js, i, section) && Field(js[i], section).Record? && d in Field(js[i], section).fields
    ensures NoStray(js, d)
  {
    forall k, t | At(js, k, t) ensures !StrayHead(Field(js[k], t), js, d) {
      assert QuietSection(js, k, t);
      if StrayHead(Field(js[k], t), js, d) {
        hide StrayHead, QuietEntry;
        StrayInSection(js, k, t, d);
      }
    }
  }

  lemma StrayInSection(js: seq<Json>, i: int, section: string, a: string)
    requires At(js, i, section) && StrayHead(Field(js[i], section), js, a)
    ensures Field(js[i], section).Record?
  {
  }

  lemma SilentQuiet(js: seq<Json>, rs: seq<Json>, i: int, section: string)
    requires Manifests(js) && Outcome(js, rs) && At(js, i, section)
    requires AllSilent(rs)
    ensures QuietSection(js, i, section)
  {
    RoundAt(js, rs, i);
    SectionKeys(js[i], rs[i], js, section);
    var s := Field(js[i], section);
    if s.Record? {
      forall d | d in s.fields ensures QuietEntry(s, js, d) {
        assert SilentSection(rs, i, section);
        hide Mismatch, Target, Manifests, Outcome, Covered, Beyond;
        if !Plain(d) { DottedSilent(js, rs, i, section, d); }
      }
      hide Mismatch, Target, Manifests, Outcome, QuietEntry, StrayHead, SilentSection;
      forall a | StrayHead(s, js, a) ensures QuietStray(js, i, section, a) {
        SilentStrayQuiet(js, rs, i, section, a);
      }
    }
  }

  /** A second round finds nothing to report if and only if the first left nothing to object to. */
  lemma SilentIffQuiet(js: seq<Json>, rs: seq<Json>)
    requires Manifests(js) && Outcome(js, rs)
    ensures Silent(rs) <==> Quiet(js)
  {
    OutcomeWellFormed(js, rs);
    SilentSections(rs);
    hide QuietSection, SilentSection, Silent;
    if Quiet(js) {
      forall i, s | At(rs, i, s) ensures SilentSection(rs, i, s) { QuietSilent(js, rs, i, s); }
    }
    if AllSilent(rs) {
      forall i, s | At(js, i, s) ensures QuietSection(js, i, s) { SilentQuiet(js, rs, i, s); }
    }
  }

  // ---------------------------------------------------------------- when everything is as it should be

  ghost predicate AllFixable(js: seq<Json>) {
    forall i :: 0 <= i < |js| ==> js[i].Record? && Fixable(js[i], js)
  }

  ghost predicate AllPlain(js: seq<Json>) {
    forall i :: 0 <= i < |js| ==> js[i].Record? && NoDotted(js[i], js)
  }

  /** All fixes succeed if and only if none is written beyond a plain entry or an earlier fix. */
  lemma OutcomeIffFixable(js: seq<Json>)
    requires Manifests(js)
    ensures (exists rs :: Outcome(js, rs)) <==> AllFixable(js)
  {
    forall i | 0 <= i < |js| ensures js[i].Record? && (Apply(js[i], Reports(js[i], js)).Some? <==> Fixable(js[i], js)) {
      FixesSucceedIff(js[i], js);
    }
    hide Fixable, Apply, Reports;
    if rs :| Outcome(js, rs) {
      forall i | 0 <= i < |js| ensures Fixable(js[i], js) { assert OutcomeAt(js, rs, i); }
    }
    if AllFixable(js) {
      var rs := seq(|js|, i requires 0 <= i < |js| => Apply(js[i], Reports(js[i], js)).value);
      forall i | 0 <= i < |js| ensures OutcomeAt(js, rs, i) {}
      assert Outcome(js, rs);
    }
  }

  lemma OutcomesEqual(js: seq<Json>, rs: seq<Json>, rs': seq<Json>)
    requires Outcome(js, rs) && Outcome(js, rs')
    ensures rs == rs'
  {
    forall i | 0 <= i < |js| ensures rs[i] == rs'[i] { assert OutcomeAt(js, rs, i) && OutcomeAt(js, rs', i); }
  }

  /** Whatever the fixes leave is a document that the rule can read again. */
  lemma OutcomeDocument(js: seq<Json>, rs: seq<Json>, i: int)
    requires Manifests(js) && Outcome(js, rs) && 0 <= i < |js|
    ensures rs[i].Record? && Document(rs[i])
  {
    RoundAt(js, rs, i);
    var fixes := Reports(js[i], js);
    ReportsMembers(js[i], js);
    OutcomeNoPrototype(js, rs, i);
    hide Reports, Manifests, Outcome, NoPrototype;
    FieldsAfterFixes(js[i], fixes);
    NoSection("name");
    OtherFieldKept(js[i], rs[i], js, "name");
    forall s | s in SECTIONS ensures Field(rs[i], s).Record? || Keyless(Field(rs[i], s)) {
      SectionKeys(js[i], rs[i], js, s);
    }
  }

  /** Fixes give no entry the name of the prototype, for they make entries of parts of names. */
  lemma OutcomeNoPrototype(js: seq<Json>, rs: seq<Json>, i: int)
    requires Manifests(js) && Outcome(js, rs) && 0 <= i < |js|
    ensures rs[i].Record? && NoPrototype(rs[i])
  {
    RoundAt(js, rs, i);
    var j, r := js[i], rs[i];
    assert NoPrototype(j);
    NoSection("name");
    hide Round, Manifests, Outcome, Manifest, Astray;
    OtherFieldKept(j, r, js, "name");
    forall s | s in SECTIONS ensures NamesNoPrototype(Field(r, s)) {
      SectionKeys(j, r, js, s);
      if Field(j, s).Record? {
        assert NamesNoPrototype(Field(j, s));
        forall d | d in Field(r, s).fields ensures "__proto__" !in Parts(d) {
          if d !in Field(j, s).fields { HeadNoPrototype(Field(j, s), js, d); }
        }
      }
    }
  }

  lemma HeadNoPrototype(s: Json, js: seq<Json>, a: string)
    requires NamesNoPrototype(s) && StrayHead(s, js, a)
    ensures "__proto__" !in Parts(a)
  {
    var d :| d in s.fields && Astray(js, d) && Parts(d)[0] == a;
    hide Astray;
    PlainParts(d);
    PlainParts(a);
    assert Parts(a) == [a] && a in Parts(d);
  }

  lemma OutcomeOne(js: seq<Json>, rs: seq<Json>, i: int)
    requires Manifests(js) && Outcome(js, rs) && 0 <= i < |js|
    ensures js[i].Record? && (rs[i].Record? && Manifest(rs[i]) <==> NoDotted(js[i], js))
  {
    RoundAt(js, rs, i);
    if NoDotted(js[i], js) {
      hide NoDotted;
      FixesRetarget(js[i], js);
      RetargetedManifest(js[i], js);
    } else {
      AstrayLeavesRecord(js, rs, i);
    }
  }

  lemma AstrayLeavesRecord(js: seq<Json>, rs: seq<Json>, i: int)
    requires Manifests(js) && Outcome(js, rs) && 0 <= i < |js| && js[i].Record? && !NoDotted(js[i], js)
    ensures rs[i].Record? && !Manifest(rs[i])
  {
    RoundAt(js, rs, i);
    OutcomeIs(js, rs, i);
    hide Manifests, Outcome, Target, Apply, Reports, Manifest, Astray, Round;
    var s, d :| s in SECTIONS && Field(js[i], s).Record? && d in Field(js[i], s).fields && Astray(js, d);
    DottedSpoilsAt(js[i], js, s, d);
  }

  lemma OutcomeIs(js: seq<Json>, rs: seq<Json>, i: int)
    requires Manifests(js) && Outcome(js, rs) && 0 <= i < |js|
    ensures js[i].Record? && Manifest(js[i]) && Apply(js[i], Reports(js[i], js)) == Some(rs[i])
  {
    assert OutcomeAt(js, rs, i);
    hide Apply, Reports, Manifest;
  }

  /** The fixes succeed and leave manifests if and only if no dependency is astray. */
  lemma SettlesIffNoDotted(js: seq<Json>)
    requires Manifests(js)
    ensures (exists rs :: Outcome(js, rs) && Manifests(rs)) <==> AllPlain(js)
  {
    if rs :| Outcome(js, rs) && Manifests(rs) {
      forall i | 0 <= i < |js| ensures js[i].Record? && NoDotted(js[i], js) { OutcomeOne(js, rs, i); }
    }
    if AllPlain(js) {
      forall i | 0 <= i < |js| ensures Apply(js[i], Reports(js[i], js)).Some? { FixesRetarget(js[i], js); }
      hide NoDotted, Manifest, Reports, Apply;
      var rs := seq(|js|, i requires 0 <= i < |js| => Apply(js[i], Reports(js[i], js)).value);
      forall i | 0 <= i < |js| ensures OutcomeAt(js, rs, i) {}
      assert Outcome(js, rs);
      forall i | 0 <= i < |js| ensures rs[i].Record? && Manifest(rs[i]) { OutcomeOne(js, rs, i); }
    }
  }

  /** Then a second round reports nothing. */
  lemma NothingReported(js: seq<Json>, rs: seq<Json>)
    requires Manifests(js) && Outcome(js, rs) && AllPlain(js)
    ensures Silent(rs)
  {
    SilentIffQuiet(js, rs);
    forall i, s | At(js, i, s) ensures QuietSection(js, i, s) {
      assert NoDotted(js[i], js);
      hide Target;
    }
  }

  /** All uses of a dependency with a plain name, for which no stray record is made, have the
      version that it should have after the fixes. */
  lemma SettledAgree(js: seq<Json>, rs: seq<Json>, i: int, section: string, dep: string)
    requires Manifests(js) && Outcome(js, rs) && At(rs, i, section) && Plain(dep) && NoStray(js, dep)
    requires Field(rs[i], section).Record? && dep in Field(rs[i], section).fields && Target(js, dep).Some?
    ensures Some(Field(rs[i], section).fields[dep]) == Target(js, dep) == Target(rs, dep)
  {
    RoundAt(js, rs, i);
    assert At(js, i, section);
    SectionKeys(js[i], rs[i], js, section);
    EntryAfter(js[i], rs[i], js, section, dep);
    GetEntry(rs[i], section, dep);
    TargetKept(js, rs, dep);
    hide Target, Outcome, Manifests;
  }
}
