/**
 What the aggregators, the windows in the writer's hands and the sink add up to.

 For every bucket, the lines written, the lines extracted and not yet written, and the bucket in
 its shard's aggregator together are the aggregate of the trades added so far (`Balanced`). This
 holds whatever the flush schedule, late trades included.
 */
module PipelineContents {
  import opened Statistics
  import opened Ordering
  import opened Snapshots
  import opened Pipeline
  import opened PipelineControl

  /** The windows extracted and not yet written, and the number of shards already visited. */
  function Unwritten(s: State): seq<WindowStats> {
    if s.writer.Flushing? then s.writer.collected
    else if s.stopper.FinalFlush? then s.stopper.collected
    else []
  }

  function ShardsVisited(s: State): nat {
    if s.writer.Flushing? then s.writer.next else if s.stopper.FinalFlush? then s.stopper.next else 0
  }

  function AllLines(s: State): seq<WindowStats> {
    Flatten(s.sink) + Unwritten(s)
  }

  /** A shard holds well-formed buckets of its own symbols. */
  ghost predicate ShardContents(cfg: Config, i: nat, windows: Windows)
    requires cfg.Valid()
  {
    WellFormed(windows, cfg.window) && forall k :: k in windows ==> cfg.ShardOf(k.symbol) == i
  }

  ghost predicate BalancedWith(lines: seq<WindowStats>, windows: Windows, ingested: seq<Trade>, window: nat, k: Key)
    requires window > 0
  {
    Combine(TallyLines(lines, k), Lookup(windows, k)) == TallyTrades(ingested, window, k)
  }

  ghost predicate Balanced(cfg: Config, s: State, k: Key)
    requires cfg.Valid()
  {
    var i := cfg.ShardOf(k.symbol);
    i < |s.shards| && BalancedWith(AllLines(s), s.shards[i].windows, s.shards[i].ingested, cfg.window, k)
  }

  /** The unwritten windows have distinct keys, of shards already visited. */
  ghost predicate CollectedOnce(cfg: Config, lines: seq<WindowStats>, visited: nat) {
    && DistinctIds(lines)
    && forall i :: 0 <= i < |lines| ==> cfg.ShardOf(lines[i].symbol) < visited
  }

  ghost predicate SortedBlocks(blocks: seq<Snapshot>) {
    Proper(blocks) && forall i :: 0 <= i < |blocks| ==> Sorted(blocks[i].lines)
  }

  ghost predicate AllSound(lines: seq<WindowStats>, window: nat)
    requires window > 0
  {
    forall i :: 0 <= i < |lines| ==> lines[i].Sound(window)
  }

  ghost predicate ShardsContents(cfg: Config, s: State)
    requires cfg.Valid()
  {
    forall i :: 0 <= i < |s.shards| ==> ShardContents(cfg, i, s.shards[i].windows)
  }

  ghost predicate Contents(cfg: Config, s: State)
    requires cfg.Valid()
  {
    && ShardsContents(cfg, s)
    && (forall k :: Balanced(cfg, s, k))
    && CollectedOnce(cfg, Unwritten(s), ShardsVisited(s))
    && SortedBlocks(s.sink)
    && AllSound(AllLines(s), cfg.window)
  }

  lemma InitialContents(cfg: Config)
    requires cfg.Valid()
    ensures Contents(cfg, Initial(cfg))
  {
    var s := Initial(cfg);
    forall k
      ensures Balanced(cfg, s, k)
    {
      assert AllLines(s) == [];
      assert Singles([], cfg.window) == [];
    }
  }

  // ------------------------------------------------------------ one bucket, one step

  lemma AddBalanced(lines: seq<WindowStats>, windows: Windows, ingested: seq<Trade>, t: Trade, window: nat, k: Key)
    requires window > 0 && BalancedWith(lines, windows, ingested, window, k)
    ensures BalancedWith(lines, AddTrade(windows, window, t), ingested + [t], window, k)
  {
    AddTradeTally(windows, window, t, k);
    TallyTradesConcat(ingested, [t], window, k);
    CombineAssociative(TallyLines(lines, k), Lookup(windows, k), TallyTrades([t], window, k));
  }

  /** Extraction from the bucket's own shard. */
  lemma ExtractBalanced(lines: seq<WindowStats>, result: seq<WindowStats>, windows: Windows, mark: nat,
                        ingested: seq<Trade>, window: nat, k: Key)
    requires window > 0 && BalancedWith(lines, windows, ingested, window, k)
    requires WellFormed(windows, window) && Enumerates(result, Before(windows, mark))
    ensures BalancedWith(lines + result, NotBefore(windows, mark), ingested, window, k)
  {
    TallyConcat(lines, result, k);
    ExtractTally(result, windows, mark, k);
    CombineAssociative(TallyLines(lines, k), TallyLines(result, k), Lookup(NotBefore(windows, mark), k));
  }

  /** Extraction of everything from the bucket's own shard. */
  lemma ExtractAllBalanced(lines: seq<WindowStats>, result: seq<WindowStats>, windows: Windows,
                           ingested: seq<Trade>, window: nat, k: Key)
    requires window > 0 && BalancedWith(lines, windows, ingested, window, k)
    requires WellFormed(windows, window) && Enumerates(result, windows)
    ensures BalancedWith(lines + result, map[], ingested, window, k)
  {
    TallyConcat(lines, result, k);
    TallyEnumerates(result, windows, k);
  }

  lemma PartKeys(windows: Windows, mark: nat)
    ensures Before(windows, mark).Keys <= windows.Keys
  {
  }

  /** Extraction from another shard. */
  lemma ElsewhereBalanced(lines: seq<WindowStats>, result: seq<WindowStats>, windows: Windows,
                          ingested: seq<Trade>, window: nat, k: Key)
    requires window > 0 && BalancedWith(lines, windows, ingested, window, k)
    requires forall i :: 0 <= i < |result| ==> result[i].Id() != k
    ensures BalancedWith(lines + result, windows, ingested, window, k)
  {
    TallyConcat(lines, result, k);
    TallyAbsent(result, k);
  }

  /** Writing permutes the lines in hand and appends them to the sink. */
  lemma WriteTally(sink: seq<Snapshot>, collected: seq<WindowStats>, k: Key)
    ensures TallyLines(Flatten(sink + WriteSpec(collected)) + [], k) == TallyLines(Flatten(sink) + collected, k)
  {
    var sorted := SortLines(collected);
    FlattenConcat(sink, WriteSpec(collected));
    BlocksFlatten(sorted);
    assert Flatten(sink + WriteSpec(collected)) + [] == Flatten(sink) + sorted;
    SortLinesMeaning(collected);
    TallyPermutation(sorted, collected, k);
    TallyConcat(Flatten(sink), sorted, k);
    TallyConcat(Flatten(sink), collected, k);
  }

  // ------------------------------------------------------------ collecting and writing

  lemma EnumeratedRoute(cfg: Config, i: nat, result: seq<WindowStats>, windows: Windows, part: Windows)
    requires cfg.Valid() && ShardContents(cfg, i, windows) && Enumerates(result, part) && part.Keys <= windows.Keys
    ensures forall j :: 0 <= j < |result| ==> cfg.ShardOf(result[j].symbol) == i
  {
  }

  lemma CollectMore(cfg: Config, lines: seq<WindowStats>, next: nat, result: seq<WindowStats>, windows: Windows, part: Windows)
    requires cfg.Valid() && CollectedOnce(cfg, lines, next)
    requires ShardContents(cfg, next, windows) && Enumerates(result, part) && part.Keys <= windows.Keys
    ensures CollectedOnce(cfg, lines + result, next + 1)
  {
  }

  /** A flush writes sorted blocks. */
  lemma WriteSorted(collected: seq<WindowStats>)
    requires DistinctIds(collected)
    ensures SortedBlocks(WriteSpec(collected))
  {
    var sorted := SortLines(collected);
    SortLinesMeaning(collected);
    BlocksFlatten(sorted);
    forall i | 0 <= i < |Blocks(sorted)|
      ensures Sorted(Blocks(sorted)[i].lines)
    {
      BlockSorted(Blocks(sorted), i);
    }
  }

  lemma BlockSorted(blocks: seq<Snapshot>, i: nat)
    requires Sorted(Flatten(blocks)) && i < |blocks|
    ensures Sorted(blocks[i].lines)
  {
  }

  // ------------------------------------------------------------ every step

  /** A trade in a shard's hand belongs to the shard. */
  lemma {:induction false} FeedRoutes(cfg: Config, msgs: seq<Message>, i: nat)
    ensures forall j :: 0 <= j < |Feed(cfg, msgs, i)| ==> cfg.ShardOf(Feed(cfg, msgs, i)[j].symbol) == i
  {
    if msgs != [] {
      FeedRoutes(cfg, msgs[..|msgs| - 1], i);
    }
  }

  lemma HandRoutes(cfg: Config, s: State, i: nat)
    requires HandOff(cfg, s) && i < |s.shards| && s.shards[i].hand.Some?
    ensures cfg.ShardOf(s.shards[i].hand.value.symbol) == i
  {
    var sh := s.shards[i];
    assert Handed(cfg, i, sh, s.parser, s.raw.items, s.accepted);
    FeedRoutes(cfg, s.accepted, i);
    hide Feed, HeldFor;
    assert Feed(cfg, s.accepted, i)[|sh.ingested|] == sh.hand.value;
  }

  lemma AddShardContents(cfg: Config, i: nat, windows: Windows, t: Trade)
    requires cfg.Valid() && ShardContents(cfg, i, windows) && cfg.ShardOf(t.symbol) == i
    ensures ShardContents(cfg, i, AddTrade(windows, cfg.window, t))
  {
    AddTradeWellFormed(windows, cfg.window, t);
  }

  lemma KeepShardContents(cfg: Config, i: nat, windows: Windows, mark: nat)
    requires cfg.Valid() && ShardContents(cfg, i, windows)
    ensures ShardContents(cfg, i, NotBefore(windows, mark)) && ShardContents(cfg, i, map[])
  {
  }

  /** Steps that touch neither the sink, nor the lines in hand, nor the aggregators. */
  ghost predicate Untouched(s: State, s': State) {
    && s'.sink == s.sink && Unwritten(s') == Unwritten(s) && ShardsVisited(s') == ShardsVisited(s)
    && |s'.shards| == |s.shards|
    && forall i :: 0 <= i < |s.shards| ==> SameWindows(s.shards[i], s'.shards[i])
  }

  ghost predicate SameWindows(sh: Shard, sh': Shard) {
    sh'.windows == sh.windows && sh'.ingested == sh.ingested && sh'.mark == sh.mark
  }

  ghost predicate MovesContents(e: Event) {
    e.AggregatorAdd? || e.FlushExtract? || e.FlushWrite? || e.FinalExtract? || e.FinalWrite?
  }

  lemma UntouchedStage(cfg: Config, s: State, e: Event)
    requires cfg.Valid() && Enabled(cfg, s, e) && IsStageStep(e) && !e.AggregatorAdd?
    ensures Untouched(s, Apply(cfg, s, e))
  {
    if e.ParserPop? || e.ParserPush? || e.ParserExit? {
      UntouchedParser(cfg, s, e);
    } else {
      UntouchedAggregator(cfg, s, e);
    }
    hide *;
  }

  lemma UntouchedParser(cfg: Config, s: State, e: Event)
    requires cfg.Valid() && Enabled(cfg, s, e) && (e.ParserPop? || e.ParserPush? || e.ParserExit?)
    ensures Untouched(s, Apply(cfg, s, e))
  {
    hide BoundedQueues.Queue.Push, BoundedQueues.Queue.Pop;
  }

  lemma UntouchedAggregator(cfg: Config, s: State, e: Event)
    requires cfg.Valid() && Enabled(cfg, s, e) && (e.AggregatorPop? || e.AggregatorExit?)
    ensures Untouched(s, Apply(cfg, s, e))
  {
    hide BoundedQueues.Queue.Push, BoundedQueues.Queue.Pop;
  }

  lemma UntouchedStop(cfg: Config, s: State, e: Event)
    requires cfg.Valid() && ThreadControl(cfg, s) && Enabled(cfg, s, e) && IsStopStep(e) && !e.FinalExtract? && !e.FinalWrite?
    ensures Untouched(s, Apply(cfg, s, e))
  {
  }

  lemma UntouchedOther(cfg: Config, s: State, e: Event)
    requires cfg.Valid() && ThreadControl(cfg, s) && Enabled(cfg, s, e)
    requires !IsStageStep(e) && !IsStopStep(e) && !e.FlushExtract? && !e.FlushWrite?
    ensures Untouched(s, Apply(cfg, s, e))
  {
    hide WindowStart;
  }

  /** Starting a flush, regular or final, leaves nothing collected. */
  lemma UntouchedStep(cfg: Config, s: State, e: Event)
    requires cfg.Valid() && Control(cfg, s) && Enabled(cfg, s, e) && !MovesContents(e)
    ensures Untouched(s, Apply(cfg, s, e))
  {
    hide Enabled, Apply, Untouched, ThreadControl, ShardsControl;
    if IsStageStep(e) {
      UntouchedStage(cfg, s, e);
    } else if IsStopStep(e) {
      UntouchedStop(cfg, s, e);
    } else {
      UntouchedOther(cfg, s, e);
    }
  }

  lemma SetContents(cfg: Config, shards: seq<Shard>, i: nat, sh: Shard, after: seq<Shard>)
    requires cfg.Valid() && i < |shards| && ShardContents(cfg, i, sh.windows) && after == shards[i := sh]
    requires forall j :: 0 <= j < |shards| ==> ShardContents(cfg, j, shards[j].windows)
    ensures forall j :: 0 <= j < |after| ==> ShardContents(cfg, j, after[j].windows)
  {
    hide ShardContents;
  }

  lemma StepShardsContents(cfg: Config, s: State, e: Event)
    requires cfg.Valid() && Control(cfg, s) && HandOff(cfg, s) && ShardsContents(cfg, s) && Enabled(cfg, s, e)
    ensures ShardsContents(cfg, Apply(cfg, s, e))
  {
    hide ShardContents, Enumerates, WriteSpec, AddTrade, NotBefore, WindowStart, ShardsControl, Handed, Starts, Reaches;
    var s' := Apply(cfg, s, e);
    if e.AggregatorAdd? {
      HandRoutes(cfg, s, e.i);
      AddShardContents(cfg, e.i, s.shards[e.i].windows, s.shards[e.i].hand.value);
      SetContents(cfg, s.shards, e.i, s'.shards[e.i], s'.shards);
    } else if e.FlushExtract? {
      var i := s.writer.next;
      KeepShardContents(cfg, i, s.shards[i].windows, s.writer.mark);
      SetContents(cfg, s.shards, i, s'.shards[i], s'.shards);
    } else if e.FinalExtract? {
      var i := s.stopper.next;
      KeepShardContents(cfg, i, s.shards[i].windows, 0);
      SetContents(cfg, s.shards, i, s'.shards[i], s'.shards);
    } else if !MovesContents(e) {
      UntouchedStep(cfg, s, e);
    }
  }

  lemma MoreLines(s: State, s': State, result: seq<WindowStats>)
    requires s'.sink == s.sink && Unwritten(s') == Unwritten(s) + result
    ensures AllLines(s') == AllLines(s) + result
  {
    hide Flatten, Unwritten;
  }

  lemma AddKeepsBalance(cfg: Config, s: State, i: nat, k: Key)
    requires cfg.Valid() && Control(cfg, s) && Balanced(cfg, s, k) && Enabled(cfg, s, AggregatorAdd(i))
    ensures Balanced(cfg, Apply(cfg, s, AggregatorAdd(i)), k)
  {
    hide BalancedWith, AddTrade, Flatten, WindowStart, ShardsControl;
    if cfg.ShardOf(k.symbol) == i {
      var sh := s.shards[i];
      AddBalanced(AllLines(s), sh.windows, sh.ingested, sh.hand.value, cfg.window, k);
    }
  }

  lemma ExtractKeepsBalance(cfg: Config, s: State, result: seq<WindowStats>, k: Key)
    requires cfg.Valid() && Control(cfg, s) && ShardsContents(cfg, s) && Balanced(cfg, s, k)
    requires Enabled(cfg, s, FlushExtract(result))
    ensures Balanced(cfg, Apply(cfg, s, FlushExtract(result)), k)
  {
    hide BalancedWith, Enumerates, Flatten, Before, NotBefore, WellFormed;
    var s', i, j := Apply(cfg, s, FlushExtract(result)), s.writer.next, cfg.ShardOf(k.symbol);
    var sh, own := s.shards[i], s.shards[j];
    assert ShardContents(cfg, i, sh.windows);
    if i == j {
      ExtractBalanced(AllLines(s), result, sh.windows, s.writer.mark, sh.ingested, cfg.window, k);
    } else {
      PartKeys(sh.windows, s.writer.mark);
      EnumeratedRoute(cfg, i, result, sh.windows, Before(sh.windows, s.writer.mark));
      ElsewhereBalanced(AllLines(s), result, own.windows, own.ingested, cfg.window, k);
    }
    MoreLines(s, s', result);
  }

  lemma FinalExtractKeepsBalance(cfg: Config, s: State, result: seq<WindowStats>, k: Key)
    requires cfg.Valid() && Control(cfg, s) && ShardsContents(cfg, s) && Balanced(cfg, s, k)
    requires Enabled(cfg, s, FinalExtract(result))
    ensures Balanced(cfg, Apply(cfg, s, FinalExtract(result)), k)
  {
    hide BalancedWith, Enumerates, Flatten, WellFormed;
    var s', i, j := Apply(cfg, s, FinalExtract(result)), s.stopper.next, cfg.ShardOf(k.symbol);
    var sh, own := s.shards[i], s.shards[j];
    assert ShardContents(cfg, i, sh.windows);
    if i == j {
      ExtractAllBalanced(AllLines(s), result, sh.windows, sh.ingested, cfg.window, k);
    } else {
      EnumeratedRoute(cfg, i, result, sh.windows, sh.windows);
      ElsewhereBalanced(AllLines(s), result, own.windows, own.ingested, cfg.window, k);
    }
    MoreLines(s, s', result);
  }

  lemma WriteKeepsBalance(cfg: Config, s: State, e: Event, k: Key)
    requires cfg.Valid() && Control(cfg, s) && Balanced(cfg, s, k) && (e.FlushWrite? || e.FinalWrite?) && Enabled(cfg, s, e)
    ensures Balanced(cfg, Apply(cfg, s, e), k)
  {
    hide WriteSpec, Flatten, TallyLines, TallyTrades, Lookup;
    WriteTally(s.sink, Unwritten(s), k);
  }

  lemma StepBalanced(cfg: Config, s: State, e: Event, k: Key)
    requires cfg.Valid() && Control(cfg, s) && ShardsContents(cfg, s) && Balanced(cfg, s, k) && Enabled(cfg, s, e)
    ensures Balanced(cfg, Apply(cfg, s, e), k)
  {
    StepControl(cfg, s, e);
    if e.AggregatorAdd? {
      AddKeepsBalance(cfg, s, e.i, k);
    } else if e.FlushExtract? {
      ExtractKeepsBalance(cfg, s, e.result, k);
    } else if e.FinalExtract? {
      FinalExtractKeepsBalance(cfg, s, e.result, k);
    } else if e.FlushWrite? || e.FinalWrite? {
      WriteKeepsBalance(cfg, s, e, k);
    } else {
      UntouchedStep(cfg, s, e);
      hide Apply, Enabled;
    }
  }

  lemma FlushCollected(cfg: Config, s: State, e: Event)
    requires cfg.Valid() && ThreadControl(cfg, s) && ShardsContents(cfg, s) && Enabled(cfg, s, e) && e.FlushExtract?
    requires CollectedOnce(cfg, Unwritten(s), ShardsVisited(s))
    ensures CollectedOnce(cfg, Unwritten(Apply(cfg, s, e)), ShardsVisited(Apply(cfg, s, e)))
  {
    hide CollectedOnce, Enumerates, Before, NotBefore;
    var windows := s.shards[s.writer.next].windows;
    assert ShardContents(cfg, s.writer.next, windows);
    PartKeys(windows, s.writer.mark);
    CollectMore(cfg, s.writer.collected, s.writer.next, e.result, windows, Before(windows, s.writer.mark));
  }

  lemma FinalCollected(cfg: Config, s: State, e: Event)
    requires cfg.Valid() && ThreadControl(cfg, s) && ShardsContents(cfg, s) && Enabled(cfg, s, e) && e.FinalExtract?
    requires CollectedOnce(cfg, Unwritten(s), ShardsVisited(s))
    ensures CollectedOnce(cfg, Unwritten(Apply(cfg, s, e)), ShardsVisited(Apply(cfg, s, e)))
  {
    hide CollectedOnce, Enumerates;
    var windows := s.shards[s.stopper.next].windows;
    assert ShardContents(cfg, s.stopper.next, windows);
    CollectMore(cfg, s.stopper.collected, s.stopper.next, e.result, windows, windows);
  }

  lemma StepCollected(cfg: Config, s: State, e: Event)
    requires cfg.Valid() && Control(cfg, s) && Contents(cfg, s) && Enabled(cfg, s, e)
    ensures CollectedOnce(cfg, Unwritten(Apply(cfg, s, e)), ShardsVisited(Apply(cfg, s, e)))
  {
    hide Balanced, WriteSpec, ShardsControl, ShardsContents, AddTrade, WindowStart, Starts, Reaches, SortedBlocks, AllSound;
    if e.FlushExtract? {
      FlushCollected(cfg, s, e);
    } else if e.FinalExtract? {
      FinalCollected(cfg, s, e);
    } else if !MovesContents(e) {
      UntouchedStep(cfg, s, e);
    }
  }

  lemma AppendSortedBlocks(a: seq<Snapshot>, b: seq<Snapshot>)
    requires SortedBlocks(a) && SortedBlocks(b)
    ensures SortedBlocks(a + b)
  {
  }

  lemma StepSortedBlocks(cfg: Config, s: State, e: Event)
    requires cfg.Valid() && Control(cfg, s) && Contents(cfg, s) && Enabled(cfg, s, e)
    ensures SortedBlocks(Apply(cfg, s, e).sink)
  {
    hide Balanced, WriteSpec, SortedBlocks;
    if e.FlushWrite? || e.FinalWrite? {
      WriteSorted(Unwritten(s));
      AppendSortedBlocks(s.sink, WriteSpec(Unwritten(s)));
    }
  }

  lemma EnumeratedSound(result: seq<WindowStats>, windows: Windows, window: nat)
    requires window > 0 && WellFormed(windows, window) && Enumerates(result, windows)
    ensures AllSound(result, window)
  {
  }

  lemma AppendSound(a: seq<WindowStats>, b: seq<WindowStats>, window: nat)
    requires window > 0 && AllSound(a, window) && AllSound(b, window)
    ensures AllSound(a + b, window)
  {
  }

  lemma PartWellFormed(windows: Windows, mark: nat, window: nat)
    requires window > 0 && WellFormed(windows, window)
    ensures WellFormed(Before(windows, mark), window)
  {
  }

  lemma WriteSound(sink: seq<Snapshot>, collected: seq<WindowStats>, window: nat)
    requires window > 0 && AllSound(Flatten(sink) + collected, window)
    ensures AllSound(Flatten(sink + WriteSpec(collected)) + [], window)
  {
    var before, sorted := Flatten(sink) + collected, SortLines(collected);
    FlattenConcat(sink, WriteSpec(collected));
    BlocksFlatten(sorted);
    SortLinesMeaning(collected);
    var after := Flatten(sink + WriteSpec(collected)) + [];
    assert after == Flatten(sink) + sorted;
    forall i | 0 <= i < |after|
      ensures after[i].Sound(window)
    {
      if i < |Flatten(sink)| {
        assert after[i] == before[i];
      } else {
        assert after[i] in multiset(collected);
        assert after[i] in before;
      }
    }
  }

  lemma FlushExtractSound(cfg: Config, s: State, e: Event)
    requires cfg.Valid() && ThreadControl(cfg, s) && ShardsContents(cfg, s) && AllSound(AllLines(s), cfg.window)
    requires Enabled(cfg, s, e) && e.FlushExtract?
    ensures AllSound(AllLines(Apply(cfg, s, e)), cfg.window)
  {
    hide Flatten, AllSound, Enumerates, Before, NotBefore, WellFormed;
    var windows := s.shards[s.writer.next].windows;
    assert ShardContents(cfg, s.writer.next, windows);
    PartWellFormed(windows, s.writer.mark, cfg.window);
    EnumeratedSound(e.result, Before(windows, s.writer.mark), cfg.window);
    AppendSound(AllLines(s), e.result, cfg.window);
    MoreLines(s, Apply(cfg, s, e), e.result);
  }

  lemma FinalExtractSound(cfg: Config, s: State, e: Event)
    requires cfg.Valid() && ThreadControl(cfg, s) && ShardsContents(cfg, s) && AllSound(AllLines(s), cfg.window)
    requires Enabled(cfg, s, e) && e.FinalExtract?
    ensures AllSound(AllLines(Apply(cfg, s, e)), cfg.window)
  {
    hide Flatten, AllSound, Enumerates, WellFormed;
    var windows := s.shards[s.stopper.next].windows;
    assert ShardContents(cfg, s.stopper.next, windows);
    EnumeratedSound(e.result, windows, cfg.window);
    AppendSound(AllLines(s), e.result, cfg.window);
    MoreLines(s, Apply(cfg, s, e), e.result);
  }

  lemma StepSound(cfg: Config, s: State, e: Event)
    requires cfg.Valid() && Control(cfg, s) && Contents(cfg, s) && Enabled(cfg, s, e)
    ensures AllSound(AllLines(Apply(cfg, s, e)), cfg.window)
  {
    hide Balanced, WriteSpec, Flatten, ShardsControl, AllSound, Enumerates, Before, NotBefore, WellFormed, AddTrade,
         WindowStart, SortedBlocks, CollectedOnce, ShardsContents;
    if e.FlushExtract? {
      FlushExtractSound(cfg, s, e);
    } else if e.FinalExtract? {
      FinalExtractSound(cfg, s, e);
    } else if e.FlushWrite? || e.FinalWrite? {
      WriteSound(s.sink, Unwritten(s), cfg.window);
    } else if !e.AggregatorAdd? {
      UntouchedStep(cfg, s, e);
    }
  }

  /** Every step keeps the contents. */
  lemma StepContents(cfg: Config, s: State, e: Event)
    requires cfg.Valid() && Control(cfg, s) && HandOff(cfg, s) && Contents(cfg, s) && Enabled(cfg, s, e)
    ensures Contents(cfg, Apply(cfg, s, e))
  {
    StepControl(cfg, s, e);
    StepShardsContents(cfg, s, e);
    StepCollected(cfg, s, e);
    StepSortedBlocks(cfg, s, e);
    StepSound(cfg, s, e);
    forall k
      ensures Balanced(cfg, Apply(cfg, s, e), k)
    {
      StepBalanced(cfg, s, e, k);
    }
    hide Apply, Enabled, Balanced, ShardsContents, CollectedOnce, SortedBlocks, AllSound, AllLines;
  }
}
