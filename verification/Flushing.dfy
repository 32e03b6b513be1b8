/**
 One flush over the shards' aggregators: `flush_completed_windows`.

 Here nothing interleaves; the aggregators are the objects of `Aggregation` and the result is
 what `Snapshots.WriteWindows` makes of everything collected. The interleaved form, with trades
 added to other shards between two extractions, is the pipeline's `FlushExtract` step.
 */
module Flushing {
  import opened Statistics
  import opened Snapshots
  import opened Aggregation

  /** No bucket is held by two shards. */
  ghost predicate Separate(contents: seq<Windows>) {
    forall i, j :: 0 <= i < j < |contents| ==> contents[i].Keys !! contents[j].Keys
  }

  /** The buckets of some shards in one map. */
  ghost function Union(contents: seq<Windows>): Windows {
    if contents == [] then map[] else Union(contents[..|contents| - 1]) + contents[|contents| - 1]
  }

  lemma {:induction false} UnionKeys(contents: seq<Windows>, k: Key)
    ensures k in Union(contents) <==> exists i :: 0 <= i < |contents| && k in contents[i]
    ensures Separate(contents) ==> forall i :: 0 <= i < |contents| && k in contents[i] ==> Union(contents)[k] == contents[i][k]
  {
    if contents != [] {
      var n := |contents| - 1;
      UnionKeys(contents[..n], k);
      if k in Union(contents[..n]) {
        var i :| 0 <= i < n && k in contents[..n][i];
        assert k in contents[i];
      }
    }
  }

  ghost function Parts(contents: seq<Windows>, mark: nat): (r: seq<Windows>)
    ensures |r| == |contents|
    ensures forall i :: 0 <= i < |r| ==> r[i] == Before(contents[i], mark)
  {
    seq(|contents|, i requires 0 <= i < |contents| => Before(contents[i], mark))
  }

  lemma CollectOne(collected: seq<WindowStats>, parts: seq<Windows>, n: nat, result: seq<WindowStats>)
    requires n < |parts| && Separate(parts)
    requires Enumerates(collected, Union(parts[..n])) && Enumerates(result, parts[n])
    ensures Enumerates(collected + result, Union(parts[..n + 1]))
  {
    assert parts[..n + 1][..n] == parts[..n];
    forall k | k in Union(parts[..n])
      ensures k !in parts[n]
    {
      UnionKeys(parts[..n], k);
    }
    hide Enumerates;
    EnumeratesAppend(collected, Union(parts[..n]), result, parts[n]);
  }

  lemma SeparateParts(contents: seq<Windows>, mark: nat)
    requires Separate(contents)
    ensures Separate(Parts(contents, mark))
  {
  }

  /** The aggregators are sound and hold these buckets. */
  ghost predicate Hold(shards: seq<MarketDataAggregator>, contents: seq<Windows>)
    reads shards
  {
    |contents| == |shards| && forall i :: 0 <= i < |shards| ==> shards[i].Valid() && shards[i].contents == contents[i]
  }

  ghost function Rest(contents: seq<Windows>, mark: nat): (r: seq<Windows>)
    ensures |r| == |contents|
    ensures forall i :: 0 <= i < |r| ==> r[i] == NotBefore(contents[i], mark)
  {
    seq(|contents|, i requires 0 <= i < |contents| => NotBefore(contents[i], mark))
  }

  ghost predicate Distinct(shards: seq<MarketDataAggregator>) {
    forall i, j :: 0 <= i < j < |shards| ==> shards[i] != shards[j]
  }

  lemma EnumeratesDistinct(lines: seq<WindowStats>, m: Windows)
    requires Enumerates(lines, m)
    ensures DistinctIds(lines)
  {
  }

  /** One iteration: the other shards keep what they hold. */
  method ExtractAt(shards: seq<MarketDataAggregator>, n: nat, mark: nat, ghost contents: seq<Windows>)
    returns (result: seq<WindowStats>)
    requires n < |shards| && Distinct(shards) && Hold(shards, contents)
    modifies shards[n]
    ensures Hold(shards, contents[n := NotBefore(contents[n], mark)])
    ensures Enumerates(result, Before(contents[n], mark))
  {
    hide Enumerates, Before, NotBefore, MarketDataAggregator.Valid;
    assert forall i :: 0 <= i < |shards| && i != n ==> shards[i] != shards[n];
    result := shards[n].ExtractCompleted(mark);
  }

  /** The shards' contents after n iterations. */
  ghost function Halfway(before: seq<Windows>, mark: nat, n: nat): seq<Windows>
    requires n <= |before|
    ensures |Halfway(before, mark, n)| == |before|
  {
    Rest(before, mark)[..n] + before[n..]
  }

  lemma HalfwayStep(before: seq<Windows>, mark: nat, n: nat)
    requires n < |before|
    ensures Halfway(before, mark, n)[n] == before[n]
    ensures Halfway(before, mark, n)[n := NotBefore(before[n], mark)] == Halfway(before, mark, n + 1)
  {
    hide NotBefore;
  }

  lemma HalfwayEnds(before: seq<Windows>, mark: nat)
    ensures Halfway(before, mark, 0) == before && Halfway(before, mark, |before|) == Rest(before, mark)
  {
    hide NotBefore;
  }

  /** After n iterations: what the shards hold and what has been collected. */
  ghost predicate Progress(shards: seq<MarketDataAggregator>, before: seq<Windows>, mark: nat, n: nat, collected: seq<WindowStats>)
    reads shards
  {
    && |before| == |shards| && n <= |shards| && Hold(shards, Halfway(before, mark, n))
    && Enumerates(collected, Union(Parts(before, mark)[..n]))
  }

  method CollectNext(shards: seq<MarketDataAggregator>, n: nat, mark: nat, collected: seq<WindowStats>,
                     ghost before: seq<Windows>)
    returns (more: seq<WindowStats>)
    requires Distinct(shards) && Separate(before) && n < |shards| && Progress(shards, before, mark, n, collected)
    modifies shards[n]
    ensures Progress(shards, before, mark, n + 1, more)
  {
    assert |before| == |shards| && Hold(shards, Halfway(before, mark, n));
    assert Enumerates(collected, Union(Parts(before, mark)[..n]));
    hide Separate, Distinct, Hold, Enumerates, Union, Halfway, Parts, Before, NotBefore;
    HalfwayStep(before, mark, n);
    var result := ExtractAt(shards, n, mark, Halfway(before, mark, n));
    SeparateParts(before, mark);
    CollectOne(collected, Parts(before, mark), n, result);
    more := collected + result;
  }

  lemma ProgressEnds(shards: seq<MarketDataAggregator>, before: seq<Windows>, mark: nat)
    ensures Hold(shards, before) ==> Progress(shards, before, mark, 0, [])
    ensures forall collected :: Progress(shards, before, mark, |shards|, collected) ==>
              Hold(shards, Rest(before, mark)) && Enumerates(collected, Union(Parts(before, mark)))
  {
    HalfwayEnds(before, mark);
    EnumeratesNone(Parts(before, mark));
    assert Parts(before, mark)[..|before|] == Parts(before, mark);
    hide Halfway, Enumerates, Union, Parts, Rest;
  }

  /** The loop that extracts one shard after the other. */
  method CollectCompleted(shards: seq<MarketDataAggregator>, mark: nat, ghost before: seq<Windows>)
    returns (collected: seq<WindowStats>)
    requires Distinct(shards) && Hold(shards, before) && Separate(before)
    modifies shards
    ensures Hold(shards, Rest(before, mark)) && Enumerates(collected, Union(Parts(before, mark)))
  {
    hide *;
    collected := [];
    ProgressEnds(shards, before, mark);
    for n := 0 to |shards|
      invariant Progress(shards, before, mark, n, collected)
    {
      collected := CollectNext(shards, n, mark, collected, before);
    }
    ProgressEnds(shards, before, mark);
  }

  /**
   Every completed window of every shard is written, once, in canonical order; every other window
   stays where it is.
   */
  method FlushCompletedWindows(shards: seq<MarketDataAggregator>, now: nat, windowMs: nat, ghost before: seq<Windows>)
    returns (blocks: seq<Snapshot>)
    requires windowMs > 0 && Distinct(shards) && Hold(shards, before) && Separate(before)
    modifies shards
    ensures Hold(shards, Rest(before, WindowStart(now, windowMs)))
    ensures exists collected ::
              Enumerates(collected, Union(Parts(before, WindowStart(now, windowMs)))) && blocks == WriteSpec(collected)
  {
    hide Enumerates, Separate, Union, Hold, WriteSpec;
    var collected := CollectCompleted(shards, now - now % windowMs, before);
    EnumeratesDistinct(collected, Union(Parts(before, WindowStart(now, windowMs))));
    blocks := WriteWindows(collected);
  }

  lemma EnumeratesNone(parts: seq<Windows>)
    ensures Enumerates([], Union(parts[..0]))
  {
  }
}
