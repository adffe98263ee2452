/** What a series of fixes leaves at each path, for fixes that write no records. */
module FixOutcomes {
  import opened Options
  import opened JsonValues
  import opened VersionFixes

  ghost predicate Writes(fixes: seq<Fix>) {
    forall f :: f in fixes ==> f.path != [] && !f.expected.Record?
  }

  /** Some fix writes on the way to `path`, and so stops everything beyond. */
  ghost predicate Blocks(fixes: seq<Fix>, path: seq<string>) {
    exists f :: f in fixes && f.path < path
  }

  /** The fixes of paths beyond `path`, taken from there. */
  function Under(fixes: seq<Fix>, path: seq<string>): seq<Fix> {
    if fixes == [] then []
    else
      var init, f := Under(fixes[..|fixes| - 1], path), fixes[|fixes| - 1];
      if path < f.path then init + [Fix(f.path[|path|..], f.expected)] else init
  }

  lemma InitWrites(fixes: seq<Fix>)
    requires Writes(fixes) && fixes != []
    ensures var init, f := fixes[..|fixes| - 1], fixes[|fixes| - 1];
      && Writes(init) && f.path != [] && !f.expected.Record?
      && (forall g :: g in fixes <==> g in init || g == f)
      && forall q :: Blocks(fixes, q) <==> Blocks(init, q) || f.path < q
  {
    assert fixes == fixes[..|fixes| - 1] + [fixes[|fixes| - 1]];
  }

  lemma ApplyLast(j: Json, fixes: seq<Fix>)
    requires fixes != [] && Apply(j, fixes).Some?
    ensures var init, f := fixes[..|fixes| - 1], fixes[|fixes| - 1];
      && Apply(j, init).Some? && Settable(Apply(j, init).value, f.path)
      && Apply(j, fixes).value == Set(Apply(j, init).value, f.path, f.expected)
  {
  }

  /** Fixes stop exactly the writes beyond them. */
  lemma {:induction false} SettableAfterFixes(j: Json, fixes: seq<Fix>, path: seq<string>)
    requires j.Record? && Writes(fixes) && Apply(j, fixes).Some? && path != []
    ensures Apply(j, fixes).value.Record?
    ensures Settable(Apply(j, fixes).value, path) <==> Settable(j, path) && !Blocks(fixes, path)
    decreases |fixes|
  {
    if fixes != [] {
      var init, f := fixes[..|fixes| - 1], fixes[|fixes| - 1];
      InitWrites(fixes);
      ApplyLast(j, fixes);
      SettableAfterFixes(j, init, path);
      hide Blocks, Apply, Settable, Set, Writes;
      SettableAfterSet(Apply(j, init).value, f.path, f.expected, path);
    }
  }

  /** What is found where a fix has written: its value, unless a fix on the way replaced it. */
  lemma {:induction false} GetFixed(j: Json, fixes: seq<Fix>, path: seq<string>, v: Json)
    requires j.Record? && Writes(fixes) && Apply(j, fixes).Some? && path != []
    requires (exists f :: f in fixes && f.path == path) && forall f :: f in fixes && f.path == path ==> f.expected == v
    ensures Get(Apply(j, fixes).value, path) == if Blocks(fixes, path) then Undefined else v
    decreases |fixes|
  {
    var init, f := fixes[..|fixes| - 1], fixes[|fixes| - 1];
    InitWrites(fixes);
    ApplyLast(j, fixes);
    var before := Apply(j, init).value;
    SettableAfterFixes(j, init, f.path);
    GetAfterSet(before, f.path, f.expected);
    if f.path < path {
      NothingBeyond(before, f.path, f.expected, path);
    } else if f.path != path {
      var g :| g in fixes && g.path == path;
      assert g in init && !(path < f.path);
      GetFixed(j, init, path, v);
      GetElsewhere(before, f.path, f.expected, path);
    }
  }

  /** What is found where no fix has written: nothing beyond a fix, what the fixes beyond it make
      of the record there, or what there was. */
  lemma {:induction false} GetUnfixed(j: Json, fixes: seq<Fix>, path: seq<string>)
    requires j.Record? && Writes(fixes) && Apply(j, fixes).Some? && path != []
    requires forall f :: f in fixes ==> f.path != path
    ensures var under, r := Under(fixes, path), Get(Apply(j, fixes).value, path);
      if Blocks(fixes, path) then r == Undefined
      else if under == [] then r == Get(j, path)
      else Apply(RecordAt(j, path), under) == Some(r)
    decreases |fixes|
  {
    if fixes != [] {
      var init, f := fixes[..|fixes| - 1], fixes[|fixes| - 1];
      InitWrites(fixes);
      ApplyLast(j, fixes);
      var before := Apply(j, init).value;
      SettableAfterFixes(j, init, f.path);
      GetUnfixed(j, init, path);
      if f.path < path {
        NothingBeyond(before, f.path, f.expected, path);
      } else if path < f.path {
        UnderNext(j, fixes, path);
      } else {
        GetElsewhere(before, f.path, f.expected, path);
      }
    }
  }

  lemma UnderNext(j: Json, fixes: seq<Fix>, path: seq<string>)
    requires j.Record? && Writes(fixes) && fixes != [] && Apply(j, fixes).Some?
    requires var init, f := fixes[..|fixes| - 1], fixes[|fixes| - 1];
      && path < f.path && !Blocks(init, f.path)
      && var under, r := Under(init, path), Get(Apply(j, init).value, path);
      if Blocks(init, path) then r == Undefined
      else if under == [] then r == Get(j, path)
      else Apply(RecordAt(j, path), under) == Some(r)
    ensures !Blocks(fixes, path)
    ensures Apply(RecordAt(j, path), Under(fixes, path)) == Some(Get(Apply(j, fixes).value, path))
  {
    var init, f := fixes[..|fixes| - 1], fixes[|fixes| - 1];
    InitWrites(fixes);
    ApplyLast(j, fixes);
    assert forall g :: g in init && g.path < path ==> g.path < f.path;
    var rest, under, before := f.path[|path|..], Under(init, path), Apply(j, init).value;
    assert f.path == path + rest;
    GetOnTheWay(before, path, rest, f.expected);
    UnderWrites(init, path);
    if under != [] { SettableAfterFixes(RecordAt(j, path), under, rest); }
    assert RecordAt(before, path) == Apply(RecordAt(j, path), under).value;
    assert Under(fixes, path) == under + [Fix(rest, f.expected)];
    ApplyOneMore(RecordAt(j, path), under, Fix(rest, f.expected));
  }

  lemma ApplyOneMore(j: Json, fixes: seq<Fix>, f: Fix)
    ensures Apply(j, fixes + [f]) ==
            if Apply(j, fixes).Some? && Settable(Apply(j, fixes).value, f.path)
            then Some(Set(Apply(j, fixes).value, f.path, f.expected)) else None
  {
    assert (fixes + [f])[..|fixes|] == fixes;
  }

  lemma {:induction false} UnderWrites(fixes: seq<Fix>, path: seq<string>)
    requires Writes(fixes)
    ensures Writes(Under(fixes, path))
    ensures forall g ::
              g in Under(fixes, path)
              <==> exists f :: f in fixes && path < f.path && g == Fix(f.path[|path|..], f.expected)
  {
    if fixes != [] {
      InitWrites(fixes);
      UnderWrites(fixes[..|fixes| - 1], path);
    }
  }

  lemma {:induction false} UnderEmpty(fixes: seq<Fix>, path: seq<string>)
    ensures Under(fixes, path) == [] <==> forall f :: f in fixes ==> !(path < f.path)
  {
    if fixes != [] {
      assert fixes == fixes[..|fixes| - 1] + [fixes[|fixes| - 1]];
      UnderEmpty(fixes[..|fixes| - 1], path);
    }
  }

  /** The fields of a record after the fixes are its own and those that fixes start with. */
  lemma {:induction false} FieldsAfterFixes(j: Json, fixes: seq<Fix>)
    requires j.Record? && WellFormed(j) && Writes(fixes) && Apply(j, fixes).Some?
    ensures Apply(j, fixes).value.Record? && WellFormed(Apply(j, fixes).value)
    ensures forall k :: k in Apply(j, fixes).value.fields <==> k in j.fields || exists f :: f in fixes && f.path[0] == k
    decreases |fixes|
  {
    if fixes != [] {
      var init, f := fixes[..|fixes| - 1], fixes[|fixes| - 1];
      InitWrites(fixes);
      ApplyLast(j, fixes);
      FieldsAfterFixes(j, init);
      SetKeepsWellFormed(Apply(j, init).value, f.path, f.expected);
      SetFields(Apply(j, init).value, f.path, f.expected);
    }
  }

  lemma SetFields(j: Json, path: seq<string>, v: Json)
    requires Settable(j, path)
    ensures Set(j, path, v).Record? && Set(j, path, v).fields.Keys == j.fields.Keys + {path[0]}
  {
  }
}
