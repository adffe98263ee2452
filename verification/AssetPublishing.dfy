/** Publishing the entries of a manifest one by one, with failures and aborts. */
module AssetPublishing {
  import opened Options

  type Asset = string

  /** What happens around one asset: when, if ever, somebody aborts the run (a listener at the start
      or the final event, or anybody while the handler runs), and whether the handler throws. */
  datatype Happening = Happening(abortAtStart: bool, throws: bool, abortMeanwhile: bool, abortAtEnd: bool)
  {
    predicate Aborts() { abortAtStart || abortMeanwhile || abortAtEnd }

    /** An abort while the handler runs counts as a failure. */
    predicate Fails() { throws || abortMeanwhile }
  }

  /** How many assets are handled before the run ends. */
  function Reach(hs: seq<Happening>): (n: nat)
    ensures n <= |hs| && forall i ::
              0 <= i < n - 1 ==> !hs[i].abortAtStart && !hs[i].abortMeanwhile && !hs[i].abortAtEnd
    ensures n > 0 ==> !hs[n - 1].abortAtStart
    ensures n < |hs| ==> hs[n].abortAtStart || (n > 0 && (hs[n - 1].abortMeanwhile || hs[n - 1].abortAtEnd))
  {
    if hs == [] || hs[0].abortAtStart then 0 else if hs[0].Aborts() then 1 else 1 + Reach(hs[1..])
  }

  /** The assets among the first `n` that are published, or that fail, in order. */
  function Outcome(assets: seq<Asset>, hs: seq<Happening>, n: nat, failed: bool): (r: seq<Asset>)
    requires n <= |assets| && n <= |hs|
  {
    if n == 0 then []
    else
      var r := Outcome(assets, hs, n - 1, failed);
      if hs[n - 1].Fails() == failed then r + [assets[n - 1]] else r
  }

  lemma {:induction false} OutcomesAddUp(assets: seq<Asset>, hs: seq<Happening>, n: nat)
    requires n <= |assets| && n <= |hs|
    ensures |Outcome(assets, hs, n, true)| + |Outcome(assets, hs, n, false)| == n
    ensures multiset(Outcome(assets, hs, n, true)) + multiset(Outcome(assets, hs, n, false)) == multiset(assets[..n])
  {
    if n > 0 {
      OutcomesAddUp(assets, hs, n - 1);
      assert assets[..n] == assets[..n - 1] + [assets[n - 1]];
    }
  }

  /** An asset fails if its handler throws or if somebody aborts the run meanwhile, and otherwise it
      is published; both lists keep the order of the assets. */
  lemma {:induction false} OutcomeKeepsOrder(assets: seq<Asset>, hs: seq<Happening>, n: nat, failed: bool)
    returns (at: seq<nat>)
    requires n <= |assets| && n <= |hs|
    ensures |at| == |Outcome(assets, hs, n, failed)|
    ensures forall i :: 0 <= i < |at| ==> at[i] < n && Outcome(assets, hs, n, failed)[i] == assets[at[i]]
    ensures forall i, j :: 0 <= i < j < |at| ==> at[i] < at[j]
    ensures forall k :: 0 <= k < n ==> (k in at <==> (hs[k].throws || hs[k].abortMeanwhile) == failed)
  {
    at := [];
    if n > 0 {
      at := OutcomeKeepsOrder(assets, hs, n - 1, failed);
      assert forall i :: 0 <= i < |at| ==> at[i] in at;
      if (hs[n - 1].throws || hs[n - 1].abortMeanwhile) == failed { at := at + [n - 1]; }
    }
  }

  function Percent(completed: nat, total: nat): (p: nat)
    requires completed <= total
    ensures p <= 100 && (p == 100 <==> completed == total)
  {
    if total == 0 then 100
    else
      PercentBounds(completed, total);
      completed * 100 / total
  }

  lemma PercentBounds(completed: nat, total: nat)
    requires completed <= total && total > 0
    ensures completed * 100 / total <= 100 && (completed * 100 / total == 100 <==> completed == total)
  {
  }

  /** The percentage is what a hundredth goes into the operations completed, rounded down. */
  lemma PercentMeans(completed: nat, total: nat)
    requires completed <= total && total > 0
    ensures var p := Percent(completed, total); p * total <= completed * 100 < (p + 1) * total
  {
  }

  lemma DivisionGrows(x: nat, y: nat, d: nat)
    requires x <= y && d > 0
    ensures x / d <= y / d
  {
    var q, r := x / d, y / d;
    assert q * d <= y < (r + 1) * d;
  }

  lemma PercentGrows(a: nat, b: nat, total: nat)
    requires a <= b <= total
    ensures Percent(a, total) <= Percent(b, total)
  {
    if total > 0 {
      assert a * 100 <= b * 100;
      DivisionGrows(a * 100, b * 100, total);
    }
  }

  class AssetPublisher {
    const assets: seq<Asset>
    const throwOnError: bool
    var currentAsset: Option<Asset>
    var failures: seq<Asset>
    var completedOperations: nat
    var aborted: bool
    /** The percentage at each progress event. */
    ghost var shown: seq<nat>
    /** The assets whose handler was started, and those published. */
    ghost var started: seq<Asset>
    ghost var published: seq<Asset>

    constructor (assets: seq<Asset>, throwOnError: bool)
      ensures this.assets == assets && this.throwOnError == throwOnError
      ensures failures == [] && completedOperations == 0 && !aborted && shown == [] && started == [] && published == []
    {
      this.assets, this.throwOnError := assets, throwOnError;
      currentAsset, failures, completedOperations, aborted := None, [], 0, false;
      shown, started, published := [], [], [];
    }

    ghost predicate Valid()
      reads this
    {
      && completedOperations <= |assets|
      && (forall i :: 0 <= i < |shown| ==> shown[i] <= Percent(completedOperations, |assets|))
      && (forall i, k :: 0 <= i < k < |shown| ==> shown[i] <= shown[k])
    }

    function PercentComplete(): nat
      requires completedOperations <= |assets|
      reads this
    {
      Percent(completedOperations, |assets|)
    }

    method Abort()
      modifies this`aborted
      ensures aborted
    {
      aborted := true;
    }

    /** The listener hears of a step, and may ask for the run to end. */
    method ProgressEvent(listenerAborts: bool) returns (stop: bool)
      requires Valid()
      modifies this`aborted, this`shown
      ensures Valid() && stop == aborted == (old(aborted) || listenerAborts)
    {
      shown := shown + [PercentComplete()];
      if listenerAborts { Abort(); }
      return aborted;
    }

    method Complete()
      requires Valid() && completedOperations < |assets|
      modifies this`completedOperations
      ensures Valid() && completedOperations == old(completedOperations) + 1
    {
      PercentGrows(completedOperations, completedOperations + 1, |assets|);
      completedOperations := completedOperations + 1;
    }

    /** One turn of the loop over the assets; the result is whether it was the last. */
    method PublishOne(asset: Asset, h: Happening) returns (stop: bool)
      requires Valid() && !aborted && completedOperations < |assets|
      modifies this
      ensures Valid() && stop == aborted == (h.abortAtStart || h.abortMeanwhile || h.abortAtEnd)
      ensures completedOperations == old(completedOperations) + if h.abortAtStart then 0 else 1
      ensures started == old(started) + if h.abortAtStart then [] else [asset]
      ensures failures == old(failures) + if !h.abortAtStart && (h.throws || h.abortMeanwhile) then [asset] else []
      ensures published == old(published) + if h.abortAtStart || h.throws || h.abortMeanwhile then [] else [asset]
    {
      currentAsset := Some(asset);
      stop := ProgressEvent(h.abortAtStart);
      if stop { return; }
      started := started + [asset];
      if h.abortMeanwhile { Abort(); }
      if h.throws || aborted {
        failures := failures + [asset];
      } else {
        published := published + [asset];
      }
      Complete();
      stop := ProgressEvent(h.abortAtEnd);
    }

    /** Exactly the assets within reach are handled, each once and in order: a handler is started for
        them and no other, and each is then published or has failed. The percentage shown never
        falls, and ends at 100 if and only if all assets are handled. */
    method Publish(hs: seq<Happening>) returns (threw: bool)
      requires |hs| == |assets| && failures == [] && completedOperations == 0 && shown == [] && started == []
               && published == []
      modifies this
      ensures completedOperations == if old(aborted) then 0 else Reach(hs)
      ensures started == assets[..completedOperations]
      ensures failures == Outcome(assets, hs, completedOperations, true)
              && published == Outcome(assets, hs, completedOperations, false)
      ensures completedOperations == |failures| + |published|
      ensures forall i, k :: 0 <= i < k < |shown| ==> shown[i] <= shown[k]
      ensures forall i :: 0 <= i < |shown| ==> shown[i] <= PercentComplete() <= 100
      ensures PercentComplete() == 100 <==> completedOperations == |assets|
      ensures threw <==> throwOnError && failures != []
      ensures aborted <==>
                old(aborted)
                || exists i :: 0 <= i < |hs| && (hs[i].abortAtStart || hs[i].abortMeanwhile || hs[i].abortAtEnd)
    {
      hide Percent, Outcome, PercentComplete, Valid;
      Starts(this, hs);
      ghost var before := aborted;
      var i, stop := 0, false;
      assert hs[0..] == hs;
      while i < |assets| && !stop
        invariant i <= |assets| && Valid() && Recorded(hs) && UnderWay(hs, before, i, stop)
      {
        if aborted { break; }
        OutcomeNext(assets, hs, i);
        ReachNext(hs, i);
        stop := PublishOne(assets[i], hs[i]);
        i := i + 1;
      }
      ShownUpToNow(this);
      OutcomesAddUp(assets, hs, completedOperations);
      threw := throwOnError && |failures| > 0;
    }

    /** The assets handled so far have been started, and published or failed as they should. */
    ghost predicate Recorded(hs: seq<Happening>)
      reads this
    {
      && completedOperations <= |assets| == |hs| && started == assets[..completedOperations]
      && failures == Outcome(assets, hs, completedOperations, true)
      && published == Outcome(assets, hs, completedOperations, false)
    }

    /** Nobody has aborted the run before it reached `i`, unless it stops here or never started. */
    ghost predicate UnderWay(hs: seq<Happening>, before: bool, i: nat, stop: bool)
      requires i <= |hs|
      reads this
    {
      if before then aborted && completedOperations == 0 && i == 0 && !stop
      else if stop then aborted && completedOperations == Reach(hs) && i > 0 && hs[i - 1].Aborts()
      else !aborted && completedOperations == i && Reach(hs) == i + Reach(hs[i..])
           && forall k :: 0 <= k < i ==> !hs[k].Aborts()
    }
  }

  lemma Starts(p: AssetPublisher, hs: seq<Happening>)
    requires |hs| == |p.assets| && p.completedOperations == 0 && p.shown == [] && p.started == [] && p.failures == []
             && p.published == []
    ensures p.Valid() && Outcome(p.assets, hs, 0, true) == Outcome(p.assets, hs, 0, false) == []
  {
  }

  lemma ShownUpToNow(p: AssetPublisher)
    requires p.Valid()
    ensures p.completedOperations <= |p.assets| && p.PercentComplete() <= 100
    ensures p.PercentComplete() == 100 <==> p.completedOperations == |p.assets|
    ensures forall i :: 0 <= i < |p.shown| ==> p.shown[i] <= p.PercentComplete()
    ensures forall i, k :: 0 <= i < k < |p.shown| ==> p.shown[i] <= p.shown[k]
  {
    hide Percent;
  }

  lemma ReachNext(hs: seq<Happening>, i: nat)
    requires i < |hs|
    ensures Reach(hs[i..]) == if hs[i].abortAtStart then 0 else if hs[i].Aborts() then 1 else 1 + Reach(hs[i + 1..])
  {
    assert hs[i..][0] == hs[i] && hs[i..][1..] == hs[i + 1..];
  }

  lemma OutcomeNext(assets: seq<Asset>, hs: seq<Happening>, n: nat)
    requires n < |assets| && n < |hs|
    ensures assets[..n + 1] == assets[..n] + [assets[n]]
    ensures Outcome(assets, hs, n + 1, true) == Outcome(assets, hs, n, true) + if hs[n].Fails() then [assets[n]] else []
    ensures Outcome(assets, hs, n + 1, false)
            == Outcome(assets, hs, n, false) + if hs[n].Fails() then [] else [assets[n]]
  {
  }
}
