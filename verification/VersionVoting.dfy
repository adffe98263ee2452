/** The versions of dependencies that packages agree on by vote, and what one round of fixes does. */
module VersionVoting {
  import opened Options
  import opened JsonValues
  import opened Splitting

  const SECTIONS := ["dependencies", "devDependencies"]

  /** `Object.keys` finds nothing in it. Non-empty strings and arrays have indices for keys. */
  predicate Keyless(j: Json) {
    j == Undefined || j == Text("") || (j.Other? && !IsArray(j))
  }

  /** The section lists no name that a path takes through the prototype of an object. */
  ghost predicate NamesNoPrototype(s: Json) {
    s.Record? ==> forall d :: d in s.fields ==> "__proto__" !in Split(d, '.')
  }

  /** The document gives nothing the name of the prototype. */
  ghost predicate NoPrototype(j: Json)
    requires j.Record?
  {
    Field(j, "name") != Text("__proto__") && forall s :: s in SECTIONS ==> NamesNoPrototype(Field(j, s))
  }

  /** The name can be made a key: it is no array, and no object with a `toString` of its own. */
  ghost predicate NameIsKey(j: Json)
    requires j.Record?
  {
    var name := Field(j, "name");
    !IsArray(name) && (name.Record? ==> "toString" !in name.fields)
  }

  /** A package.json document: its name can be made a key, and its dependency sections, if they
      have keys at all, are records. */
  ghost predicate Document(j: Json) {
    && WellFormed(j) && j.Record? && NameIsKey(j) && NoPrototype(j)
    && forall s :: s in SECTIONS ==> Field(j, s).Record? || Keyless(Field(j, s))
  }

  /** A package.json as it should be: its version and what its sections hold are no records. */
  ghost predicate Manifest(j: Json) {
    && WellFormed(j) && j.Record? && NameIsKey(j) && !Field(j, "version").Record? && NoPrototype(j)
    && forall s :: s in SECTIONS ==> Section(Field(j, s))
  }

  ghost predicate Section(s: Json) {
    Keyless(s) || (s.Record? && forall d :: d in s.fields ==> !s.fields[d].Record?)
  }

  // ---------------------------------------------------------------- votes

  /** The versions of the section can be counted. Under an inherited name there is a function
      already where the list of versions should be, so counting a version throws. */
  ghost predicate CountableSection(s: Json) {
    s.Record? ==> forall d :: d in s.fields && IsInherited(d) ==> s.fields[d] == Text("*")
  }

  ghost predicate Countable(j: Json)
    requires j.Record?
  {
    forall s :: s in SECTIONS ==> CountableSection(Field(j, s))
  }

  ghost predicate AllCountable(js: seq<Json>) {
    forall i :: 0 <= i < |js| ==> js[i].Record? && Countable(js[i])
  }

  datatype VersionCount = VersionCount(version: Json, count: nat)

  /** The version that `s` asks for, unless it is any version at all. */
  function VotesIn(s: Json, dep: string): seq<Json> {
    if s.Record? && dep in s.fields && s.fields[dep] != Text("*") then [s.fields[dep]] else []
  }

  function VotesOf(j: Json, dep: string): seq<Json> {
    if j.Record? then VotesIn(Field(j, SECTIONS[0]), dep) + VotesIn(Field(j, SECTIONS[1]), dep) else []
  }

  function Votes(js: seq<Json>, dep: string): seq<Json> {
    if js == [] then [] else Votes(js[..|js| - 1], dep) + VotesOf(js[|js| - 1], dep)
  }

  /** One more vote for `v`, which is appended if it is new. */
  function Counted(vs: seq<VersionCount>, v: Json): seq<VersionCount> {
    if vs == [] then [VersionCount(v, 1)]
    else if Identical(vs[0].version, v) then [vs[0].(count := vs[0].count + 1)] + vs[1..]
    else [vs[0]] + Counted(vs[1..], v)
  }

  function Tally(votes: seq<Json>): seq<VersionCount> {
    if votes == [] then [] else Counted(Tally(votes[..|votes| - 1]), votes[|votes| - 1])
  }

  /** The first of the versions with the most votes. */
  function Winner(vs: seq<VersionCount>): (w: nat)
    requires vs != []
    ensures w < |vs|
            && forall i :: 0 <= i < |vs| ==> vs[i].count <= vs[w].count && (i < w ==> vs[i].count < vs[w].count)
  {
    var last := |vs| - 1;
    if last == 0 then 0
    else
      var w := Winner(vs[..last]);
      if vs[last].count > vs[w].count then last else w
  }

  function CountOf(votes: seq<Json>, v: Json): nat {
    multiset(votes)[v]
  }

  /** How many votes support one that is for `v`: objects and arrays only ever support themselves. */
  function Weight(votes: seq<Json>, v: Json): nat {
    if ByIdentity(v) && v in votes then 1 else CountOf(votes, v)
  }

  function Sum(vs: seq<VersionCount>): nat {
    if vs == [] then 0 else vs[0].count + Sum(vs[1..])
  }

  /** The votes counted for `v` in all entries together. */
  function Total(vs: seq<VersionCount>, v: Json): nat {
    if vs == [] then 0
    else if vs[0].version == v then vs[0].count + Total(vs[1..], v)
    else Total(vs[1..], v)
  }

  ghost predicate Distinct(vs: seq<VersionCount>) {
    forall i, k :: 0 <= i < k < |vs| ==> !Identical(vs[i].version, vs[k].version)
  }

  ghost predicate Lists(vs: seq<VersionCount>, v: Json) {
    exists i :: 0 <= i < |vs| && vs[i].version == v
  }

  /** `t` counts every vote once, for the version it is for, and counts objects and arrays one by one. */
  ghost predicate Tallies(t: seq<VersionCount>, votes: seq<Json>) {
    && Distinct(t) && Sum(t) == |votes|
    && (forall v :: Total(t, v) == CountOf(votes, v))
    && (forall i :: 0 <= i < |t| ==> t[i].count == Weight(votes, t[i].version) > 0)
  }

  /** What one more vote for `v` does to the entries. */
  ghost predicate OneMore(vs: seq<VersionCount>, v: Json, r: seq<VersionCount>) {
    && |r| >= |vs| && Sum(r) == Sum(vs) + 1
    && (forall i :: 0 <= i < |vs| ==>
          r[i] == vs[i].(count := vs[i].count + if Identical(vs[i].version, v) then 1 else 0))
    && (if Lists(vs, v) && !ByIdentity(v) then |r| == |vs| else r == vs + [VersionCount(v, 1)])
  }

  lemma OneMoreBehind(first: VersionCount, rest: seq<VersionCount>, v: Json, r: seq<VersionCount>)
    requires !Identical(first.version, v) && OneMore(rest, v, r)
    ensures OneMore([first] + rest, v, [first] + r)
  {
    var vs := [first] + rest;
    assert vs[1..] == rest && ([first] + r)[1..] == r;
    assert Lists(vs, v) && !ByIdentity(v) <==> Lists(rest, v) && !ByIdentity(v) by {
      if i :| 0 <= i < |vs| && vs[i].version == v && !ByIdentity(v) { assert rest[i - 1].version == v; }
      if i :| 0 <= i < |rest| && rest[i].version == v { assert vs[i + 1].version == v; }
    }
    hide Lists;
  }

  lemma OneMoreHere(vs: seq<VersionCount>, v: Json)
    requires Distinct(vs) && vs != [] && Identical(vs[0].version, v)
    ensures OneMore(vs, v, [vs[0].(count := vs[0].count + 1)] + vs[1..])
  {
    var r := [vs[0].(count := vs[0].count + 1)] + vs[1..];
    assert r[1..] == vs[1..] && Lists(vs, v);
    assert forall i :: 0 < i < |vs| ==> !Identical(vs[0].version, vs[i].version);
  }

  lemma {:induction false} CountedAdds(vs: seq<VersionCount>, v: Json)
    requires Distinct(vs)
    ensures OneMore(vs, v, Counted(vs, v)) && Distinct(Counted(vs, v))
  {
    if vs == [] {
      assert [VersionCount(v, 1)][1..] == [];
    } else if Identical(vs[0].version, v) {
      OneMoreHere(vs, v);
    } else {
      assert Distinct(vs[1..]) && [vs[0]] + vs[1..] == vs;
      CountedAdds(vs[1..], v);
      OneMoreBehind(vs[0], vs[1..], v, Counted(vs[1..], v));
    }
    hide Sum, Lists, Counted;
    var r := Counted(vs, v);
    forall i, k | 0 <= i < k < |r| ensures !Identical(r[i].version, r[k].version) {
      if k == |vs| && |r| > |vs| { assert Lists(vs, vs[i].version) by { NamedAt(vs, i); } }
    }
  }

  lemma NamedAt(vs: seq<VersionCount>, i: nat)
    requires i < |vs|
    ensures Lists(vs, vs[i].version)
  {
  }

  lemma {:induction false} TotalNext(vs: seq<VersionCount>, v: Json, u: Json)
    ensures Total(Counted(vs, v), u) == Total(vs, u) + if u == v then 1 else 0
  {
    if vs != [] && !Identical(vs[0].version, v) { TotalNext(vs[1..], v, u); }
  }

  lemma {:induction false} TotalLists(vs: seq<VersionCount>, v: Json)
    requires forall i :: 0 <= i < |vs| ==> vs[i].count > 0
    ensures Total(vs, v) > 0 <==> Lists(vs, v)
  {
    if vs != [] {
      TotalLists(vs[1..], v);
      if i :| 0 < i < |vs| && vs[i].version == v { assert vs[1..][i - 1].version == v; }
    }
  }

  lemma WeightNext(t: seq<VersionCount>, votes: seq<Json>, v: Json, i: nat)
    requires Tallies(t, votes) && i < |Counted(t, v)|
    ensures var e := Counted(t, v)[i]; e.count == Weight(votes + [v], e.version) > 0
  {
    CountedAdds(t, v);
    TotalLists(t, v);
    assert multiset(votes + [v]) == multiset(votes) + multiset{v};
    if i < |t| { assert t[i].count == Weight(votes, t[i].version); }
  }

  lemma TalliesNext(t: seq<VersionCount>, votes: seq<Json>, v: Json)
    requires Tallies(t, votes)
    ensures Tallies(Counted(t, v), votes + [v])
  {
    CountedAdds(t, v);
    forall i | 0 <= i < |Counted(t, v)|
      ensures Counted(t, v)[i].count == Weight(votes + [v], Counted(t, v)[i].version) > 0
    {
      WeightNext(t, votes, v, i);
    }
    hide Counted, Sum, Distinct, Total;
    assert multiset(votes + [v]) == multiset(votes) + multiset{v};
    forall u ensures Total(Counted(t, v), u) == CountOf(votes + [v], u) { TotalNext(t, v, u); }
  }

  lemma {:induction false} TallyTallies(votes: seq<Json>)
    ensures Tallies(Tally(votes), votes)
  {
    if votes != [] {
      TallyTallies(votes[..|votes| - 1]);
      TalliesNext(Tally(votes[..|votes| - 1]), votes[..|votes| - 1], votes[|votes| - 1]);
      assert votes == votes[..|votes| - 1] + [votes[|votes| - 1]];
    }
  }

  lemma TallyLists(votes: seq<Json>, v: Json)
    ensures v in votes <==> Lists(Tally(votes), v)
  {
    TallyTallies(votes);
    TotalLists(Tally(votes), v);
    assert CountOf(votes, v) > 0 <==> v in votes;
  }

  /** The version chosen has been voted for, and no vote has more support. */
  lemma WinnerHasMost(votes: seq<Json>, v: Json)
    requires votes != []
    ensures Tally(votes) != []
    ensures var chosen := Tally(votes)[Winner(Tally(votes))].version;
            chosen in votes && Weight(votes, v) <= Weight(votes, chosen)
  {
    TallyTallies(votes);
    var t := Tally(votes);
    assert votes[0] in votes;
    TallyLists(votes, votes[0]);
    var w := Winner(t);
    TallyLists(votes, t[w].version);
    TallyLists(votes, v);
    if v in votes {
      var i :| 0 <= i < |t| && t[i].version == v;
      assert t[i].count <= t[w].count;
    }
  }
}
