/** What the version rule asks for, in terms of the package.json documents themselves. */
module Agreement {
  import opened Options
  import opened JsonValues
  import opened VersionVoting
  import opened VersionFixes
  import opened DottedNames
  import opened FixedSections
  import opened SecondRound

  /** The document is that of a package that goes by the name `s`. */
  ghost predicate GoesBy(j: Json, s: string) {
    j.Record? &&
    match if "name" in j.fields then j.fields["name"] else Undefined
    case Undefined => s == "undefined"
    case Text(t) => t == s
    case Other(t) => t == s
    case Record(_, _) => s == "[object Object]"
  }

  /** The document uses `dep` at the version `v` in one of its two dependency sections. */
  ghost predicate Uses(j: Json, section: string, dep: string, v: Json) {
    && (section == "dependencies" || section == "devDependencies")
    && j.Record? && section in j.fields && j.fields[section].Record?
    && dep in j.fields[section].fields && j.fields[section].fields[dep] == v
  }

  lemma UsesAre(j: Json, section: string, dep: string, v: Json)
    ensures Uses(j, section, dep, v) <==>
              j.Record? && section in SECTIONS && Field(j, section).Record? && dep in Field(j, section).fields
              && Field(j, section).fields[dep] == v
  {
    assert SECTIONS == ["dependencies", "devDependencies"];
  }

  // ---------------------------------------------------------------- packages of our own

  lemma {:induction false} OwnVersion(js: seq<Json>, i: nat, s: string)
    requires i < |js| && GoesBy(js[i], s) && forall k :: i < k < |js| ==> !GoesBy(js[k], s)
    ensures OurVersion(js, s) == Some(if "version" in js[i].fields then js[i].fields["version"] else Undefined)
  {
    if i < |js| - 1 { OwnVersion(js[..|js| - 1], i, s); }
  }

  lemma {:induction false} NotOurs(js: seq<Json>, s: string)
    requires !IsInherited(s) && forall k :: 0 <= k < |js| ==> !GoesBy(js[k], s)
    ensures OurVersion(js, s) == None
  {
    hide IsInherited;
    if js != [] { NotOurs(js[..|js| - 1], s); }
  }

  /** Uses of a package of our own should have the version of the last package of that name. */
  lemma OwnVersionIsTarget(js: seq<Json>, i: nat, s: string)
    requires i < |js| && js[i].Record? && "name" in js[i].fields && js[i].fields["name"] == Text(s)
    requires forall k :: i < k < |js| ==> !GoesBy(js[k], s)
    ensures Target(js, s) == Some(if "version" in js[i].fields then js[i].fields["version"] else Undefined)
  {
    OwnVersion(js, i, s);
  }

  /** After a run that leaves manifests, every use of it in any package has that version. */
  lemma OwnVersionUsed(js: seq<Json>, rs: seq<Json>, i: nat, s: string, k: nat, section: string, v: Json)
    requires Manifests(js) && Outcome(js, rs) && Manifests(rs) && '.' !in s
    requires i < |js| && js[i].Record? && "name" in js[i].fields && js[i].fields["name"] == Text(s)
    requires forall k :: i < k < |js| ==> !GoesBy(js[k], s)
    requires k < |rs| && Uses(rs[k], section, s, v)
    ensures v == if "version" in js[i].fields then js[i].fields["version"] else Undefined
  {
    OwnVersionIsTarget(js, i, s);
    UsesAre(rs[k], section, s, v);
    PlainOutcome(js, rs, s);
    assert At(rs, k, section);
    hide Target, Outcome, Manifests, NoStray;
    SettledAgree(js, rs, k, section, s);
  }

  /** A run that leaves manifests has made no stray records. */
  lemma PlainOutcome(js: seq<Json>, rs: seq<Json>, s: string)
    requires Manifests(js) && Outcome(js, rs) && Manifests(rs)
    ensures NoStray(js, s)
  {
    forall i, t | At(js, i, t) ensures !StrayHead(Field(js[i], t), js, s) {
      hide Outcome, Manifests, Astray, Manifest;
      OutcomeLengths(js, rs);
      OutcomePlain(js, rs, i);
    }
  }

  lemma OutcomePlain(js: seq<Json>, rs: seq<Json>, i: int)
    requires Manifests(js) && Outcome(js, rs) && Manifests(rs) && 0 <= i < |js|
    ensures js[i].Record? && NoDotted(js[i], js)
  {
    OutcomeLengths(js, rs);
    OutcomeOne(js, rs, i);
    assert rs[i].Record? && Manifest(rs[i]);
  }

  /** After such a run the packages use what they used, each at the version that it should have. */
  lemma FixedUse(js: seq<Json>, rs: seq<Json>, k: nat, section: string, d: string, u: Json)
    requires Manifests(js) && Outcome(js, rs) && Manifests(rs) && '.' !in d
    requires k < |js| && Uses(js[k], section, d, u)
    ensures k < |rs| && Uses(rs[k], section, d, if Target(js, d).Some? then Target(js, d).value else u)
  {
    UsesAre(js[k], section, d, u);
    hide Uses, Manifests, Outcome, Target, Plain, NoStray, StrayHead;
    OutcomeLengths(js, rs);
    RoundAt(js, rs, k);
    PlainOutcome(js, rs, d);
    assert At(js, k, section) && At(rs, k, section);
    assert Plain(d) by { DotFree(d); }
    SectionKeys(js[k], rs[k], js, section);
    EntryAfter(js[k], rs[k], js, section, d);
    GetEntry(rs[k], section, d);
    UsesAre(rs[k], section, d, if Target(js, d).Some? then Target(js, d).value else u);
  }

  lemma DotFree(d: string)
    requires '.' !in d
    ensures Plain(d)
  {
  }

  // ---------------------------------------------------------------- the version used most

  /** The documents that use `dep` at the version `v` in a section. */
  ghost function UsersOf(js: seq<Json>, section: string, dep: string, v: Json): set<int> {
    set k | 0 <= k < |js| && Uses(js[k], section, dep, v)
  }

  /** How often the documents use `dep` at the version `v`. */
  ghost function UseCount(js: seq<Json>, dep: string, v: Json): nat {
    |UsersOf(js, "dependencies", dep, v)| + |UsersOf(js, "devDependencies", dep, v)|
  }

  lemma UsersNext(js: seq<Json>, section: string, dep: string, v: Json)
    requires js != []
    ensures var n := |js| - 1;
            |UsersOf(js, section, dep, v)|
              == |UsersOf(js[..n], section, dep, v)| + if Uses(js[n], section, dep, v) then 1 else 0
  {
    hide Uses;
    var n := |js| - 1;
    var before := UsersOf(js[..n], section, dep, v);
    assert n !in before;
    assert UsersOf(js, section, dep, v) == if Uses(js[n], section, dep, v) then before + {n} else before;
  }

  lemma SectionCounted(j: Json, section: string, dep: string, v: Json)
    requires v != Text("*") && j.Record? && section in SECTIONS
    ensures multiset(VotesIn(Field(j, section), dep))[v] == if Uses(j, section, dep, v) then 1 else 0
  {
    UsesAre(j, section, dep, v);
    hide Uses;
  }

  ghost function UsesOnce(j: Json, dep: string, v: Json): nat {
    (if Uses(j, "dependencies", dep, v) then 1 else 0) + (if Uses(j, "devDependencies", dep, v) then 1 else 0)
  }

  lemma UseCountNext(js: seq<Json>, dep: string, v: Json)
    requires js != []
    ensures UseCount(js, dep, v) == UseCount(js[..|js| - 1], dep, v) + UsesOnce(js[|js| - 1], dep, v)
  {
    hide Uses, UsersOf;
    UsersNext(js, "dependencies", dep, v);
    UsersNext(js, "devDependencies", dep, v);
  }

  lemma VotesCounted(j: Json, dep: string, v: Json)
    requires v != Text("*") && j.Record?
    ensures CountOf(VotesOf(j, dep), v) == UsesOnce(j, dep, v)
  {
    assert SECTIONS[0] == "dependencies" && SECTIONS[1] == "devDependencies";
    SectionCounted(j, SECTIONS[0], dep, v);
    SectionCounted(j, SECTIONS[1], dep, v);
    hide Uses, VotesIn;
    var a, b := VotesIn(Field(j, SECTIONS[0]), dep), VotesIn(Field(j, SECTIONS[1]), dep);
    assert multiset(a + b) == multiset(a) + multiset(b);
  }

  lemma CountConcat(a: seq<Json>, b: seq<Json>, v: Json)
    ensures CountOf(a + b, v) == CountOf(a, v) + CountOf(b, v)
  {
    assert multiset(a + b) == multiset(a) + multiset(b);
  }

  lemma NoUses(dep: string, v: Json)
    ensures UseCount([], dep, v) == 0 == CountOf(Votes([], dep), v)
  {
    assert UsersOf([], "dependencies", dep, v) == UsersOf([], "devDependencies", dep, v) == {};
  }

  /** The votes for a version are its uses, but for those of any version. */
  lemma {:induction false} UsesCounted(js: seq<Json>, dep: string, v: Json)
    requires v != Text("*") && forall k :: 0 <= k < |js| ==> js[k].Record?
    ensures UseCount(js, dep, v) == CountOf(Votes(js, dep), v)
  {
    hide *;
    if js == [] {
      NoUses(dep, v);
    } else {
      var init, last := js[..|js| - 1], js[|js| - 1];
      UsesCounted(init, dep, v);
      UseCountNext(js, dep, v);
      VotesCounted(last, dep, v);
      VotesLast(js, dep);
      CountConcat(Votes(init, dep), VotesOf(last, dep), v);
    }
  }

  /** Uses of any other dependency should have the version that is used most, if it is used at all
      other than at any version. Objects and arrays are told apart even if they look the same. */
  lemma MostUsedIsTarget(js: seq<Json>, dep: string, other: Json)
    requires !IsInherited(dep) && forall k :: 0 <= k < |js| ==> js[k].Record? && !GoesBy(js[k], dep)
    ensures Target(js, dep).None? <==> forall v :: v != Text("*") ==> UseCount(js, dep, v) == 0
    ensures Target(js, dep).Some? ==> var v := Target(js, dep).value;
      && v != Text("*") && UseCount(js, dep, v) > 0
      && (other != Text("*") && !ByIdentity(other) && !ByIdentity(v) ==>
          UseCount(js, dep, other) <= UseCount(js, dep, v))
  {
    NotOurs(js, dep);
    TargetVotedFor(js, dep);
    NoVotesForAny(js, dep);
    var votes := Votes(js, dep);
    hide IsInherited, OurVersion, Votes, UseCount, VotesOf;
    forall v | v != Text("*") ensures UseCount(js, dep, v) == 0 <==> v !in votes {
      UsesCounted(js, dep, v);
    }
    if votes != [] {
      assert votes[0] in votes;
      WinnerHasMost(votes, other);
      var v := Target(js, dep).value;
      if other != Text("*") { UsesCounted(js, dep, other); }
      UsesCounted(js, dep, v);
    }
  }

  // ---------------------------------------------------------------- among equals

  lemma {:induction false} TallyExtends(a: seq<Json>, b: seq<Json>)
    ensures |Tally(a)| <= |Tally(a + b)|
    ensures forall i :: 0 <= i < |Tally(a)| ==> Tally(a + b)[i].version == Tally(a)[i].version
    decreases |b|
  {
    if b == [] {
      assert a + b == a;
    } else {
      var init, last := b[..|b| - 1], b[|b| - 1];
      TallyExtends(a, init);
      assert (a + b)[..|a + b| - 1] == a + init;
      TallyTallies(a + init);
      CountedAdds(Tally(a + init), last);
    }
  }

  /** Of versions with the same support, one that was voted for earlier is preferred. */
  lemma EarlierPreferred(a: seq<Json>, b: seq<Json>, v: Json, u: Json)
    requires v in a && u !in a && CountOf(a + b, v) == CountOf(a + b, u) && !ByIdentity(v) && !ByIdentity(u)
    ensures Tally(a + b) != [] && Tally(a + b)[Winner(Tally(a + b))].version != u
  {
    var t := Tally(a + b);
    TallyExtends(a, b);
    TallyTallies(a + b);
    TallyLists(a, v);
    TallyLists(a, u);
    var i :| 0 <= i < |Tally(a)| && Tally(a)[i].version == v;
    var w := Winner(t);
    hide Tally, Sum, Total, Distinct;
    assert t[i].version == v && t[i].count == Weight(a + b, v);
    assert forall k :: 0 <= k < |Tally(a)| ==> Tally(a)[k].version != u;
    assert t[w].count == Weight(a + b, t[w].version);
  }

  lemma {:induction false} VotesPrefix(js: seq<Json>, n: nat, dep: string)
    requires n <= |js|
    ensures Votes(js[..n], dep) <= Votes(js, dep)
  {
    if n == |js| {
      assert js[..n] == js;
    } else {
      VotesPrefix(js[..|js| - 1], n, dep);
      assert js[..|js| - 1][..n] == js[..n];
    }
  }

  /** Of two versions that are used equally often, one that an earlier package uses is preferred. */
  lemma EarlierUsePreferred(js: seq<Json>, n: nat, dep: string, v: Json, u: Json)
    requires !IsInherited(dep) && forall k :: 0 <= k < |js| ==> js[k].Record? && !GoesBy(js[k], dep)
    requires n <= |js| && UseCount(js[..n], dep, v) > 0 && UseCount(js[..n], dep, u) == 0
    requires UseCount(js, dep, v) == UseCount(js, dep, u)
    requires v != Text("*") && u != Text("*") && !ByIdentity(v) && !ByIdentity(u)
    ensures Target(js, dep).Some? && Target(js, dep) != Some(u)
  {
    hide *;
    NotOurs(js, dep);
    UsesCounted(js[..n], dep, v);
    UsesCounted(js[..n], dep, u);
    UsesCounted(js, dep, v);
    UsesCounted(js, dep, u);
    VotesPrefix(js, n, dep);
    TargetAmongEquals(js, dep, Votes(js[..n], dep), v, u);
  }

  lemma TargetAmongEquals(js: seq<Json>, dep: string, a: seq<Json>, v: Json, u: Json)
    requires OurVersion(js, dep) == None && a <= Votes(js, dep) && CountOf(a, v) > 0 && CountOf(a, u) == 0
    requires CountOf(Votes(js, dep), v) == CountOf(Votes(js, dep), u) && !ByIdentity(v) && !ByIdentity(u)
    ensures Target(js, dep).Some? && Target(js, dep) != Some(u)
  {
    var all := Votes(js, dep);
    hide Votes, OurVersion, Tally, Winner;
    var b := all[|a|..];
    assert all == a + b;
    EarlierPreferred(a, b, v, u);
  }

  // ---------------------------------------------------------------- what a run without fixes says

  /** The rule has nothing to say about packages without dots in the names of their dependencies if
      and only if every use has the version that it should have. */
  lemma SilentIffAgreed(js: seq<Json>)
    requires Manifests(js)
    requires forall k, t, d, v :: 0 <= k < |js| && Uses(js[k], t, d, v) ==> '.' !in d
    ensures Silent(js) <==>
              forall k, t, d, v :: 0 <= k < |js| && Uses(js[k], t, d, v) ==> Target(js, d) in {None, Some(v)}
  {
    assert SectionsWellFormed(js) by {
      forall i | 0 <= i < |js| ensures js[i].Record? && forall s :: s in SECTIONS ==> WellFormed(Field(js[i], s)) {
        assert Manifest(js[i]);
      }
    }
    SilentSections(js);
    forall k, t, d, v | 0 <= k < |js| && Uses(js[k], t, d, v)
      ensures At(js, k, t) && (Mismatch(js[k], t, d, js) == [] <==> Target(js, d) in {None, Some(v)})
    {
      UseSilent(js, k, t, d, v);
    }
    hide Target, Mismatch, Manifests, SectionsWellFormed, Silent;
    if forall k, t, d, v :: 0 <= k < |js| && Uses(js[k], t, d, v) ==> Target(js, d) in {None, Some(v)} {
      forall i, s | At(js, i, s) ensures SilentSection(js, i, s) {
        if Field(js[i], s).Record? {
          forall d | d in Field(js[i], s).fields ensures Mismatch(js[i], s, d, js) == [] {
            UsesAre(js[i], s, d, Field(js[i], s).fields[d]);
          }
        }
      }
    }
    if AllSilent(js) {
      forall k, t, d, v | 0 <= k < |js| && Uses(js[k], t, d, v) ensures Target(js, d) in {None, Some(v)} {
        UsesAre(js[k], t, d, v);
        SilentEntry(js, k, t, d);
      }
    }
  }

  lemma UseSilent(js: seq<Json>, k: nat, t: string, d: string, v: Json)
    requires Manifests(js) && k < |js| && Uses(js[k], t, d, v) && '.' !in d
    ensures At(js, k, t) && (Mismatch(js[k], t, d, js) == [] <==> Target(js, d) in {None, Some(v)})
  {
    UsesAre(js[k], t, d, v);
    assert Manifest(js[k]);
    TargetFlat(js, d);
    MismatchAt(js[k], t, d, js);
    GetEntry(js[k], t, d);
    hide Target, Mismatch, Manifests, Manifest, Uses;
    if Target(js, d).Some? { SameAsPlain(v, Target(js, d).value); }
  }
}
