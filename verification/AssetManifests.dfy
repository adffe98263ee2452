/** Asset manifests: selecting destinations by pattern, and reading and writing patterns. */
module AssetManifests {
  import opened Options
  import opened Splitting

  datatype Identifier = Identifier(assetId: string, destinationId: string)

  /** A record's entries in order; `Distinct` says that its keys differ. */
  type Entries<V> = seq<(string, V)>

  ghost predicate Distinct<V>(es: Entries<V>) {
    forall i, k :: 0 <= i < k < |es| ==> es[i].0 != es[k].0
  }

  datatype Asset = Asset(source: string, destinations: Entries<string>)

  /** A manifest, whose asset records may be absent. */
  datatype Manifest = Manifest(version: string, files: Option<Entries<Asset>>, dockerImages: Option<Entries<Asset>>)

  function OrEmpty<V>(es: Option<Entries<V>>): Entries<V> {
    if es.Some? then es.value else []
  }

  datatype Kind = File | DockerImage

  datatype Entry = Entry(kind: Kind, id: Identifier, source: string, destination: string)

  /** A pattern that leaves out a part accepts anything there. */
  datatype Pattern = Pattern(assetId: Option<string>, destinationId: Option<string>)

  predicate Matches(p: Pattern, id: Identifier) {
    (p.assetId.None? || p.assetId.value == id.assetId)
      && (p.destinationId.None? || p.destinationId.value == id.destinationId)
  }

  predicate Selected(ps: seq<Pattern>, id: Identifier) {
    exists i :: 0 <= i < |ps| && Matches(ps[i], id)
  }

  /** Some pattern has no asset, or this one, and no destination, or this one. */
  lemma SelectedMeans(ps: seq<Pattern>, asset: string, destination: string)
    ensures Selected(ps, Identifier(asset, destination)) <==>
              exists p :: p in ps && p.assetId in {None, Some(asset)} && p.destinationId in {None, Some(destination)}
  {
    if p :| p in ps && p.assetId in {None, Some(asset)} && p.destinationId in {None, Some(destination)} {
      var i :| 0 <= i < |ps| && ps[i] == p;
      assert Matches(ps[i], Identifier(asset, destination));
    }
  }

  // ---------------------------------------------------------------- the list of entries

  function AssetEntries(kind: Kind, assetId: string, asset: Asset, destinations: Entries<string>): seq<Entry> {
    if destinations == [] then []
    else
      var last := destinations[|destinations| - 1];
      AssetEntries(kind, assetId, asset, destinations[..|destinations| - 1])
        + [Entry(kind, Identifier(assetId, last.0), asset.source, last.1)]
  }

  function KindEntries(kind: Kind, assets: Entries<Asset>): seq<Entry> {
    if assets == [] then []
    else
      var last := assets[|assets| - 1];
      KindEntries(kind, assets[..|assets| - 1]) + AssetEntries(kind, last.0, last.1, last.1.destinations)
  }

  function AllEntries(m: Manifest): seq<Entry> {
    KindEntries(File, OrEmpty(m.files)) + KindEntries(DockerImage, OrEmpty(m.dockerImages))
  }

  /** How many entries there are for all assets before the `i`th one. */
  function Ahead(assets: Entries<Asset>, i: nat): nat
    requires i <= |assets|
  {
    if i == 0 then 0 else Ahead(assets, i - 1) + |assets[i - 1].1.destinations|
  }

  lemma {:induction false} AssetEntryAt(kind: Kind, assetId: string, asset: Asset, ds: Entries<string>, k: nat)
    ensures |AssetEntries(kind, assetId, asset, ds)| == |ds|
    ensures k < |ds| ==> AssetEntries(kind, assetId, asset, ds)[k]
                         == Entry(kind, Identifier(assetId, ds[k].0), asset.source, ds[k].1)
  {
    if ds != [] { AssetEntryAt(kind, assetId, asset, ds[..|ds| - 1], k); }
  }

  lemma {:induction false} AheadPrefix(assets: Entries<Asset>, n: nat, i: nat)
    requires i <= n <= |assets|
    ensures Ahead(assets[..n], i) == Ahead(assets, i) <= Ahead(assets, n)
    decreases n, i
  {
    if i > 0 { AheadPrefix(assets, n, i - 1); }
    if i < n { AheadGrows(assets, i, n); }
  }

  lemma {:induction false} AheadGrows(assets: Entries<Asset>, i: nat, n: nat)
    requires i <= n <= |assets|
    ensures Ahead(assets, i) <= Ahead(assets, n)
    ensures i < n ==> Ahead(assets, i) + |assets[i].1.destinations| <= Ahead(assets, n)
  {
    if i < n { AheadGrows(assets, i, n - 1); }
  }

  /** The entry for the `k`th destination of the `i`th asset comes after those of earlier assets
      and destinations, and there are no other entries. */
  lemma {:induction false} EntryAt(kind: Kind, assets: Entries<Asset>, i: nat, k: nat)
    ensures |KindEntries(kind, assets)| == Ahead(assets, |assets|)
    ensures i < |assets| && k < |assets[i].1.destinations| ==>
              && Ahead(assets, i) + k < Ahead(assets, |assets|)
              && KindEntries(kind, assets)[Ahead(assets, i) + k]
                 == Entry(kind, Identifier(assets[i].0, assets[i].1.destinations[k].0), assets[i].1.source,
                          assets[i].1.destinations[k].1)
  {
    if assets != [] {
      var n, init := |assets| - 1, assets[..|assets| - 1];
      EntryAt(kind, init, i, k);
      AheadPrefix(assets, n, n);
      AssetEntryAt(kind, assets[n].0, assets[n].1, assets[n].1.destinations, k);
      if i < |assets| {
        AheadGrows(assets, i, |assets|);
        if i < n {
          AheadPrefix(assets, n, i);
          AheadGrows(assets, i, n);
        }
      }
    }
  }

  /** The entries of the files come first, and then those of the images; an absent record has none. */
  lemma AllEntriesAt(m: Manifest, i: nat, k: nat)
    ensures var files := if m.files.Some? then m.files.value else [];
            var images := if m.dockerImages.Some? then m.dockerImages.value else [];
            var n, es := Ahead(files, |files|), AllEntries(m);
      && |es| == n + Ahead(images, |images|)
      && (i < |files| && k < |files[i].1.destinations| ==>
            && Ahead(files, i) + k < n
            && es[Ahead(files, i) + k]
               == Entry(File, Identifier(files[i].0, files[i].1.destinations[k].0), files[i].1.source,
                        files[i].1.destinations[k].1))
      && (i < |images| && k < |images[i].1.destinations| ==>
            && n + Ahead(images, i) + k < |es|
            && es[n + Ahead(images, i) + k]
               == Entry(DockerImage, Identifier(images[i].0, images[i].1.destinations[k].0), images[i].1.source,
                        images[i].1.destinations[k].1))
  {
    EntryAt(File, OrEmpty(m.files), i, k);
    EntryAt(DockerImage, OrEmpty(m.dockerImages), i, k);
    hide KindEntries, Ahead;
  }

  method MakeEntries(kind: Kind, assets: Entries<Asset>) returns (ret: seq<Entry>)
    ensures ret == KindEntries(kind, assets)
  {
    ret := [];
    for i := 0 to |assets|
      invariant ret == KindEntries(kind, assets[..i])
    {
      var (assetId, asset) := assets[i];
      ghost var before := ret;
      for k := 0 to |asset.destinations|
        invariant ret == before + AssetEntries(kind, assetId, asset, asset.destinations[..k])
      {
        var (destId, destination) := asset.destinations[k];
        assert asset.destinations[..k + 1][..k] == asset.destinations[..k];
        ret := ret + [Entry(kind, Identifier(assetId, destId), asset.source, destination)];
      }
      assert asset.destinations[..|asset.destinations|] == asset.destinations;
      assert assets[..i + 1][..i] == assets[..i];
    }
    assert assets[..|assets|] == assets;
  }

  method GetEntries(m: Manifest) returns (ret: seq<Entry>)
    ensures ret == AllEntries(m)
  {
    var files := MakeEntries(File, OrEmpty(m.files));
    var images := MakeEntries(DockerImage, OrEmpty(m.dockerImages));
    return files + images;
  }

  // ---------------------------------------------------------------- selecting

  /** A key keeps its position; a new one goes last. */
  function Put<V>(es: Entries<V>, key: string, value: V): Entries<V> {
    if es == [] then [(key, value)]
    else if es[0].0 == key then [(key, value)] + es[1..]
    else [es[0]] + Put(es[1..], key, value)
  }

  lemma {:induction false} PutNew<V>(es: Entries<V>, key: string, value: V)
    requires forall i :: 0 <= i < |es| ==> es[i].0 != key
    ensures Put(es, key, value) == es + [(key, value)]
  {
    if es != [] { PutNew(es[1..], key, value); }
  }

  function KeptDestinations(assetId: string, xs: Entries<string>, ps: seq<Pattern>): Entries<string> {
    if xs == [] then []
    else
      var last := xs[|xs| - 1];
      var r := KeptDestinations(assetId, xs[..|xs| - 1], ps);
      if Selected(ps, Identifier(assetId, last.0)) then r + [last] else r
  }

  /** The assets of which some destination is kept. */
  function KeptAssets(assets: Entries<Asset>, ps: seq<Pattern>): Entries<Asset> {
    if assets == [] then []
    else
      var last := assets[|assets| - 1];
      var kept := KeptDestinations(last.0, last.1.destinations, ps);
      var r := KeptAssets(assets[..|assets| - 1], ps);
      if kept != [] then r + [(last.0, last.1.(destinations := kept))] else r
  }

  lemma {:induction false} KeptKeys(assetId: string, xs: Entries<string>, ps: seq<Pattern>)
    ensures forall e :: e in KeptDestinations(assetId, xs, ps) ==> e in xs
  {
    if xs != [] { KeptKeys(assetId, xs[..|xs| - 1], ps); }
  }

  lemma {:induction false} KeptAssetKeys(assets: Entries<Asset>, ps: seq<Pattern>)
    ensures forall e :: e in KeptAssets(assets, ps) ==> exists i :: 0 <= i < |assets| && assets[i].0 == e.0
  {
    if assets != [] {
      var init := assets[..|assets| - 1];
      KeptAssetKeys(init, ps);
      forall e | e in KeptAssets(assets, ps) ensures exists i :: 0 <= i < |assets| && assets[i].0 == e.0 {
        if e in KeptAssets(init, ps) {
          var i :| 0 <= i < |init| && init[i].0 == e.0;
          assert assets[i].0 == e.0;
        } else {
          assert assets[|assets| - 1].0 == e.0;
        }
      }
    }
  }

  method FilterDict(assetId: string, xs: Entries<string>, ps: seq<Pattern>) returns (ret: Entries<string>)
    requires Distinct(xs)
    ensures ret == KeptDestinations(assetId, xs, ps)
  {
    ret := [];
    for i := 0 to |xs|
      invariant ret == KeptDestinations(assetId, xs[..i], ps)
    {
      assert xs[..i + 1][..i] == xs[..i];
      if Selected(ps, Identifier(assetId, xs[i].0)) {
        KeptKeys(assetId, xs[..i], ps);
        assert forall e :: e in xs[..i] ==> e.0 != xs[i].0;
        PutNew(ret, xs[i].0, xs[i].1);
        ret := Put(ret, xs[i].0, xs[i].1);
      }
    }
    assert xs[..|xs|] == xs;
  }

  method SelectAssets(assets: Entries<Asset>, ps: seq<Pattern>) returns (ret: Entries<Asset>)
    requires Distinct(assets) && forall i :: 0 <= i < |assets| ==> Distinct(assets[i].1.destinations)
    ensures ret == KeptAssets(assets, ps)
  {
    ret := [];
    for i := 0 to |assets|
      invariant ret == KeptAssets(assets[..i], ps)
    {
      var (assetId, asset) := assets[i];
      assert assets[..i + 1][..i] == assets[..i];
      var filtered := FilterDict(assetId, asset.destinations, ps);
      if |filtered| > 0 {
        KeptAssetKeys(assets[..i], ps);
        PutNew(ret, assetId, asset.(destinations := filtered));
        ret := Put(ret, assetId, asset.(destinations := filtered));
      }
    }
    assert assets[..|assets|] == assets;
  }

  ghost predicate WellFormed(m: Manifest) {
    && Distinct(OrEmpty(m.files))
    && (forall i :: 0 <= i < |OrEmpty(m.files)| ==> Distinct(OrEmpty(m.files)[i].1.destinations))
    && Distinct(OrEmpty(m.dockerImages))
    && (forall i :: 0 <= i < |OrEmpty(m.dockerImages)| ==> Distinct(OrEmpty(m.dockerImages)[i].1.destinations))
  }

  /** Without a selection everything is returned. With one, the entries are those of the manifest,
      in order, whose identifier some pattern matches. */
  method Select(m: Manifest, selection: Option<seq<Pattern>>) returns (r: Manifest)
    requires WellFormed(m)
    ensures selection.None? ==> r == m
    ensures selection.Some? ==> AllEntries(r) == Filter(AllEntries(m), selection.value)
    ensures selection.Some? ==> forall a :: a in OrEmpty(r.files) + OrEmpty(r.dockerImages) ==> a.1.destinations != []
  {
    if selection.None? { return m; }
    var files := SelectAssets(OrEmpty(m.files), selection.value);
    var images := SelectAssets(OrEmpty(m.dockerImages), selection.value);
    KindEntriesFiltered(File, OrEmpty(m.files), selection.value);
    KindEntriesFiltered(DockerImage, OrEmpty(m.dockerImages), selection.value);
    NoneEmpty(OrEmpty(m.files), selection.value);
    NoneEmpty(OrEmpty(m.dockerImages), selection.value);
    FilterConcat(KindEntries(File, OrEmpty(m.files)), KindEntries(DockerImage, OrEmpty(m.dockerImages)),
                 selection.value);
    return Manifest(m.version, Some(files), Some(images));
  }

  // ---------------------------------------------------------------- selection is a filter

  function Filter(es: seq<Entry>, ps: seq<Pattern>): seq<Entry> {
    if es == [] then []
    else
      var r, last := Filter(es[..|es| - 1], ps), es[|es| - 1];
      if Selected(ps, last.id) then r + [last] else r
  }

  lemma FilterNext(es: seq<Entry>, e: Entry, ps: seq<Pattern>)
    ensures Filter(es + [e], ps) == if Selected(ps, e.id) then Filter(es, ps) + [e] else Filter(es, ps)
  {
    assert (es + [e])[..|es|] == es;
  }

  lemma {:induction false} FilterConcat(a: seq<Entry>, b: seq<Entry>, ps: seq<Pattern>)
    ensures Filter(a + b, ps) == Filter(a, ps) + Filter(b, ps)
  {
    if b == [] {
      assert a + b == a;
    } else {
      assert (a + b)[..|a + b| - 1] == a + b[..|b| - 1];
      FilterConcat(a, b[..|b| - 1], ps);
    }
  }

  lemma AssetEntriesNext(kind: Kind, assetId: string, asset: Asset, ds: Entries<string>, d: (string, string))
    ensures AssetEntries(kind, assetId, asset, ds + [d]) ==
            AssetEntries(kind, assetId, asset, ds) + [Entry(kind, Identifier(assetId, d.0), asset.source, d.1)]
  {
    assert (ds + [d])[..|ds|] == ds;
  }

  lemma KindEntriesNext(kind: Kind, assets: Entries<Asset>, assetId: string, asset: Asset)
    ensures KindEntries(kind, assets + [(assetId, asset)])
            == KindEntries(kind, assets) + AssetEntries(kind, assetId, asset, asset.destinations)
  {
    assert (assets + [(assetId, asset)])[..|assets|] == assets;
  }

  lemma {:induction false} AssetEntriesFiltered(kind: Kind, assetId: string, asset: Asset, ds: Entries<string>,
                                                ps: seq<Pattern>)
    ensures AssetEntries(kind, assetId, asset, KeptDestinations(assetId, ds, ps))
            == Filter(AssetEntries(kind, assetId, asset, ds), ps)
  {
    if ds != [] {
      var init, last := ds[..|ds| - 1], ds[|ds| - 1];
      AssetEntriesFiltered(kind, assetId, asset, init, ps);
      FilterNext(AssetEntries(kind, assetId, asset, init),
                 Entry(kind, Identifier(assetId, last.0), asset.source, last.1), ps);
      AssetEntriesNext(kind, assetId, asset, KeptDestinations(assetId, init, ps), last);
    }
  }

  lemma {:induction false} KindEntriesFiltered(kind: Kind, assets: Entries<Asset>, ps: seq<Pattern>)
    ensures KindEntries(kind, KeptAssets(assets, ps)) == Filter(KindEntries(kind, assets), ps)
  {
    if assets != [] {
      var init, last := assets[..|assets| - 1], assets[|assets| - 1];
      KindEntriesFiltered(kind, init, ps);
      var kept := KeptDestinations(last.0, last.1.destinations, ps);
      AssetEntriesFiltered(kind, last.0, last.1, last.1.destinations, ps);
      SourceOnly(kind, last.0, last.1, last.1.(destinations := kept), kept);
      NoEntries(kind, last.0, last.1);
      hide Filter, AssetEntries, KeptDestinations, Selected;
      FilterConcat(KindEntries(kind, init), AssetEntries(kind, last.0, last.1, last.1.destinations), ps);
      if kept != [] {
        KindEntriesNext(kind, KeptAssets(init, ps), last.0, last.1.(destinations := kept));
      } else {
        assert KindEntries(kind, KeptAssets(init, ps)) + [] == KindEntries(kind, KeptAssets(init, ps));
      }
    }
  }

  lemma {:induction false} NoneEmpty(assets: Entries<Asset>, ps: seq<Pattern>)
    ensures forall a :: a in KeptAssets(assets, ps) ==> a.1.destinations != []
  {
    if assets != [] { NoneEmpty(assets[..|assets| - 1], ps); }
  }

  lemma NoEntries(kind: Kind, assetId: string, asset: Asset)
    ensures AssetEntries(kind, assetId, asset, []) == []
  {
  }

  lemma {:induction false} SourceOnly(kind: Kind, assetId: string, a: Asset, b: Asset, ds: Entries<string>)
    requires a.source == b.source
    ensures AssetEntries(kind, assetId, a, ds) == AssetEntries(kind, assetId, b, ds)
  {
    if ds != [] { SourceOnly(kind, assetId, a, b, ds[..|ds| - 1]); }
  }

  lemma {:induction false} FilterMembers(es: seq<Entry>, ps: seq<Pattern>)
    ensures forall e :: e in Filter(es, ps) <==> e in es && Selected(ps, e.id)
  {
    if es != [] {
      assert es == es[..|es| - 1] + [es[|es| - 1]];
      FilterMembers(es[..|es| - 1], ps);
    }
  }

  /** The entries that are kept are those that some pattern matches, and they keep their order. */
  lemma {:induction false} FilterKeepsOrder(es: seq<Entry>, ps: seq<Pattern>) returns (at: seq<nat>)
    ensures |at| == |Filter(es, ps)|
    ensures forall i :: 0 <= i < |at| ==> at[i] < |es| && Filter(es, ps)[i] == es[at[i]]
    ensures forall i, j :: 0 <= i < j < |at| ==> at[i] < at[j]
    ensures forall k :: 0 <= k < |es| ==> (k in at <==> Selected(ps, es[k].id))
  {
    at := [];
    if es != [] {
      at := FilterKeepsOrder(es[..|es| - 1], ps);
      assert forall i :: 0 <= i < |at| ==> at[i] in at;
      if Selected(ps, es[|es| - 1].id) { at := at + [|es| - 1]; }
    }
  }

  /** Selecting twice keeps what both selections match, in either order. */
  lemma {:induction false} FilterTwice(es: seq<Entry>, ps: seq<Pattern>, qs: seq<Pattern>)
    ensures Filter(Filter(es, ps), qs) == Filter(Filter(es, qs), ps)
    ensures forall e :: e in Filter(Filter(es, ps), qs) <==> e in es && Selected(ps, e.id) && Selected(qs, e.id)
  {
    FilterCommutes(es, ps, qs);
    FilterMembers(es, ps);
    FilterMembers(Filter(es, ps), qs);
  }

  lemma {:induction false} FilterCommutes(es: seq<Entry>, ps: seq<Pattern>, qs: seq<Pattern>)
    ensures Filter(Filter(es, ps), qs) == Filter(Filter(es, qs), ps)
  {
    if es != [] {
      var init, last := es[..|es| - 1], es[|es| - 1];
      FilterCommutes(init, ps, qs);
      assert es == init + [last];
      FilterNext(init, last, ps);
      FilterNext(init, last, qs);
      FilterNext(Filter(init, ps), last, qs);
      FilterNext(Filter(init, qs), last, ps);
      hide Filter, Selected;
    }
  }

  // ---------------------------------------------------------------- patterns as strings

  function Part(x: string): Option<string> {
    if x != "*" then Some(x) else None
  }

  function OrNone(x: Option<string>): Option<string> {
    if x == Some("") then None else x
  }

  /** The pattern that a string stands for, unless it is refused. */
  function Parse(s: string): Option<Pattern> {
    if s == "" then None
    else
      var parts := Split(s, ':');
      if |parts| == 1 then Some(Pattern(Part(parts[0]), None))
      else if |parts| == 2 then Some(Pattern(OrNone(Part(parts[0])), OrNone(Part(parts[1]))))
      else None
  }

  /** A text without a separator names an asset, or any asset if it is a star. */
  lemma ParseOne(a: string)
    requires ':' !in a
    ensures Parse(a) == if a == "" then None else if a == "*" then Some(Pattern(None, None))
                        else Some(Pattern(Some(a), None))
  {
    SplitPlain(a, ':');
  }

  /** A text with one separator names an asset and a destination, or any if one is empty or a star. */
  lemma ParseTwo(a: string, b: string)
    requires ':' !in a && ':' !in b
    ensures Parse(a + [':'] + b) == Some(Pattern(if a == "" || a == "*" then None else Some(a),
                                                 if b == "" || b == "*" then None else Some(b)))
  {
    SplitAt(a, ':', b);
    SplitPlain(b, ':');
  }

  /** A text with more separators is refused. */
  lemma ParseMore(a: string, b: string, c: string)
    requires ':' !in a && ':' !in b
    ensures Parse(a + [':'] + (b + [':'] + c)) == None
  {
    SplitAt(a, ':', b + [':'] + c);
    SplitAt(b, ':', c);
  }

  function OrStar(x: Option<string>): string {
    if x.Some? then x.value else "*"
  }

  function ToString(p: Pattern): string {
    OrStar(p.assetId) + [':'] + OrStar(p.destinationId)
  }

  /** A part that can be told from a separator, a wildcard and nothing. */
  predicate Writable(x: Option<string>) {
    x.Some? ==> x.value != "" && x.value != "*" && ':' !in x.value
  }

  /** A pattern is read back from its string exactly if both its parts can be written. */
  lemma ParseOfToString(p: Pattern)
    ensures Parse(ToString(p)) == Some(p) <==> Writable(p.assetId) && Writable(p.destinationId)
  {
    var a, b := OrStar(p.assetId), OrStar(p.destinationId);
    if ':' !in a {
      SplitAt(a, ':', b);
      SplitPlain(b, ':');
    } else {
      if Parse(ToString(p)) == Some(p) { PartsWritten(ToString(p), p); }
    }
  }

  lemma PartsWritten(s: string, p: Pattern)
    requires Parse(s) == Some(p)
    ensures (p.assetId.Some? ==> ':' !in p.assetId.value) && (p.destinationId.Some? ==> ':' !in p.destinationId.value)
  {
    PartsPlain(s, ':', 0);
    if |Split(s, ':')| == 2 { PartsPlain(s, ':', 1); }
  }

  /** Every string that is accepted stands for the same pattern as the string of that pattern. */
  lemma ParseToStringParse(s: string)
    requires Parse(s).Some?
    ensures Parse(ToString(Parse(s).value)) == Parse(s)
  {
    PartsPlain(s, ':', 0);
    SplitPlain(s, ':');
    if |Split(s, ':')| == 2 { PartsPlain(s, ':', 1); }
    ParseOfToString(Parse(s).value);
  }
}
