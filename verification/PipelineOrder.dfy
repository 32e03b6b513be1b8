/**
 When the output is in order.

 `Written` are the window starts in the sink, `Awaited` those still to be written: held by a shard
 or collected by a flush. The output is in order as long as the blocks ascend and everything
 awaited starts after everything written. Every step keeps this equivalent to the history flag
 `overtaken`, although a flush is not atomic across shards and the clock may step back.

 A trade that is not late is never overtaken: what a shard still holds starts at or after the
 watermark it was last extracted with, and every flush visits every shard.
 */
module PipelineOrder {
  import opened Statistics
  import opened Ordering
  import opened Snapshots
  import opened Pipeline
  import opened PipelineControl
  import opened PipelineContents

  // ------------------------------------------------------------ window starts

  ghost function KeyStarts(windows: Windows): set<nat> {
    set k | k in windows :: k.start
  }

  ghost function ShardStarts(shards: seq<Shard>): set<nat> {
    if shards == [] then {} else ShardStarts(shards[..|shards| - 1]) + KeyStarts(shards[|shards| - 1].windows)
  }

  ghost function Written(s: State): set<nat> {
    Starts(Flatten(s.sink))
  }

  ghost function Awaited(s: State): set<nat> {
    Starts(Unwritten(s)) + ShardStarts(s.shards)
  }

  ghost predicate Below(a: set<nat>, b: set<nat>) {
    forall x, y :: x in a && y in b ==> x < y
  }

  ghost predicate AllUnder(a: set<nat>, bound: nat) {
    forall x :: x in a ==> x < bound
  }

  ghost predicate InOrder(s: State) {
    Ascending(s.sink) && Below(Written(s), Awaited(s))
  }

  lemma StartsConcat(a: seq<WindowStats>, b: seq<WindowStats>)
    ensures Starts(a + b) == Starts(a) + Starts(b)
  {
  }

  lemma StartsPermute(a: seq<WindowStats>, b: seq<WindowStats>)
    requires multiset(a) == multiset(b)
    ensures Starts(a) == Starts(b)
  {
    assert forall x :: x in a <==> x in multiset(a);
    assert forall x :: x in b <==> x in multiset(b);
  }

  lemma {:induction false} ShardStartsMeaning(shards: seq<Shard>, w: nat)
    ensures w in ShardStarts(shards) <==> exists i :: 0 <= i < |shards| && w in KeyStarts(shards[i].windows)
  {
    hide KeyStarts;
    if shards != [] {
      var n := |shards| - 1;
      ShardStartsMeaning(shards[..n], w);
      if i :| 0 <= i < n && w in KeyStarts(shards[i].windows) {
        assert shards[..n][i] == shards[i];
      }
      if w in ShardStarts(shards[..n]) {
        var i :| 0 <= i < n && w in KeyStarts(shards[..n][i].windows);
        assert shards[..n][i] == shards[i];
      }
    }
  }

  lemma {:induction false} SameShardStarts(a: seq<Shard>, b: seq<Shard>)
    requires |a| == |b| && forall i :: 0 <= i < |a| ==> a[i].windows == b[i].windows
    ensures ShardStarts(a) == ShardStarts(b)
  {
    if a != [] {
      SameShardStarts(a[..|a| - 1], b[..|b| - 1]);
    }
  }

  /** One shard gains or loses some window starts. */
  lemma {:induction false} SetShardStarts(shards: seq<Shard>, i: nat, sh: Shard, more: set<nat>)
    requires i < |shards|
    ensures KeyStarts(sh.windows) + more == KeyStarts(shards[i].windows) ==>
              ShardStarts(shards[i := sh]) + more == ShardStarts(shards)
    ensures KeyStarts(sh.windows) == KeyStarts(shards[i].windows) + more ==>
              ShardStarts(shards[i := sh]) == ShardStarts(shards) + more
  {
    hide KeyStarts;
    var n := |shards| - 1;
    if i == n {
      assert shards[i := sh][..n] == shards[..n];
    } else {
      assert shards[i := sh][..n] == shards[..n][i := sh];
      SetShardStarts(shards[..n], i, sh, more);
    }
  }

  lemma AddStarts(windows: Windows, window: nat, t: Trade)
    requires window > 0
    ensures KeyStarts(AddTrade(windows, window, t)) == KeyStarts(windows) + {WindowStart(t.time, window)}
  {
    var k := TradeKey(t, window);
    assert k in AddTrade(windows, window, t);
  }

  lemma EnumeratedStarts(result: seq<WindowStats>, part: Windows)
    requires Enumerates(result, part) && forall k :: k in part ==> part[k].Id() == k
    ensures Starts(result) == KeyStarts(part)
  {
    forall w | w in KeyStarts(part)
      ensures w in Starts(result)
    {
      var k :| k in part && k.start == w;
      assert part[k] in result;
    }
  }

  lemma SplitStarts(windows: Windows, mark: nat)
    ensures KeyStarts(NotBefore(windows, mark)) + KeyStarts(Before(windows, mark)) == KeyStarts(windows)
    ensures AllUnder(KeyStarts(Before(windows, mark)), mark)
    ensures forall w :: w in KeyStarts(NotBefore(windows, mark)) ==> mark <= w
  {
    forall w | w in KeyStarts(windows)
      ensures w in KeyStarts(NotBefore(windows, mark)) || w in KeyStarts(Before(windows, mark))
    {
      var k :| k in windows && k.start == w;
      assert k in NotBefore(windows, mark) || k in Before(windows, mark);
    }
  }

  // ------------------------------------------------------------ watermarks

  /** The watermark a shard has been extracted with, as far as the flush in progress has come. */
  function MarkOf(s: State, i: nat): nat {
    if s.writer.Flushing? && i < s.writer.next then MaxNat(s.settled, s.writer.mark) else s.settled
  }

  ghost predicate ShardMarks(s: State) {
    forall i :: 0 <= i < |s.shards| ==> s.shards[i].mark == MarkOf(s, i)
  }

  /** Written and collected windows start before the watermark they were extracted with. */
  ghost predicate UnderMarks(s: State) {
    && (!s.stopper.Stopped? ==> AllUnder(Written(s), s.settled))
    && (s.writer.Flushing? ==> AllUnder(Starts(s.writer.collected), s.writer.mark))
  }

  // ------------------------------------------------------------ behind the flush in progress

  /** A shard already visited holds what the flush left there and what was added behind it. */
  ghost predicate LeftBehind(windows: Windows, mark: nat, passed: set<nat>) {
    forall w :: w in KeyStarts(windows) ==> mark <= w || w in passed
  }

  ghost predicate Visited(s: State) {
    s.writer.Flushing? ==>
      && (forall i :: 0 <= i < s.writer.next && i < |s.shards| ==> LeftBehind(s.shards[i].windows, s.writer.mark, s.passed))
      && s.passed <= ShardStarts(Behind(s))
  }

  /** The shards the flush in progress has visited. */
  ghost function Behind(s: State): seq<Shard>
    requires s.writer.Flushing?
  {
    if s.writer.next <= |s.shards| then s.shards[..s.writer.next] else s.shards
  }

  /** Without late trades nothing is added below the watermark of the flush in progress. */
  ghost predicate LateFree(s: State) {
    !s.late ==> !s.overtaken && (s.writer.Flushing? ==> forall p :: p in s.passed ==> s.writer.mark <= p)
  }

  ghost predicate Order(s: State) {
    && ShardMarks(s)
    && UnderMarks(s)
    && Visited(s)
    && LateFree(s)
    && (s.overtaken <==> !InOrder(s))
  }

  lemma InitialOrder(cfg: Config)
    requires cfg.Valid()
    ensures Order(Initial(cfg))
  {
    var s := Initial(cfg);
    assert Flatten(s.sink) == [] && Written(s) == {};
  }

  // ------------------------------------------------------------ appending to the sink

  lemma {:induction false} StartsOfSink(blocks: seq<Snapshot>, w: nat)
    requires Proper(blocks)
    ensures w in Starts(Flatten(blocks)) <==> exists i :: 0 <= i < |blocks| && blocks[i].start == w
  {
    if blocks != [] {
      var n := |blocks| - 1;
      StartsOfSink(blocks[..n], w);
      StartsConcat(Flatten(blocks[..n]), blocks[n].lines);
      assert blocks[n].Valid();
      assert blocks[n].lines[0] in blocks[n].lines;
      hide Flatten;
      if i :| 0 <= i < n && blocks[i].start == w {
        assert blocks[..n][i].start == w;
      }
      if i :| 0 <= i < n && blocks[..n][i].start == w {
        assert blocks[i].start == w;
      }
    }
  }

  ghost predicate AllAfter(a: seq<Snapshot>, b: seq<Snapshot>) {
    forall i, j :: 0 <= i < |a| && 0 <= j < |b| ==> a[i].start < b[j].start
  }

  lemma AscendingConcat(a: seq<Snapshot>, b: seq<Snapshot>)
    ensures Ascending(a + b) <==> Ascending(a) && Ascending(b) && AllAfter(a, b)
  {
    var r := a + b;
    if Ascending(r) {
      assert forall i :: 0 <= i < |a| ==> r[i] == a[i];
      assert forall j :: 0 <= j < |b| ==> r[|a| + j] == b[j];
    }
  }

  lemma AfterIsBelow(a: seq<Snapshot>, b: seq<Snapshot>)
    requires Proper(a) && Proper(b)
    ensures AllAfter(a, b) <==> Below(Starts(Flatten(a)), Starts(Flatten(b)))
  {
    hide Flatten, Starts;
    var x, y := Starts(Flatten(a)), Starts(Flatten(b));
    if AllAfter(a, b) {
      forall v, w | v in x && w in y
        ensures v < w
      {
        StartsOfSink(a, v);
        StartsOfSink(b, w);
      }
    }
    if Below(x, y) {
      forall i, j | 0 <= i < |a| && 0 <= j < |b|
        ensures a[i].start < b[j].start
      {
        StartsOfSink(a, a[i].start);
        StartsOfSink(b, b[j].start);
      }
    }
  }

  /** The blocks of a flush. */
  lemma WriteStarts(collected: seq<WindowStats>)
    requires DistinctIds(collected)
    ensures Proper(WriteSpec(collected)) && Ascending(WriteSpec(collected))
    ensures Starts(Flatten(WriteSpec(collected))) == Starts(collected)
  {
    var sorted := SortLines(collected);
    SortLinesMeaning(collected);
    BlocksFlatten(sorted);
    StartsOfBlocks(sorted);
    StartsPermute(sorted, collected);
  }

  /** The sink after a flush ascends exactly if it did before and the flush starts after it. */
  lemma AppendFlush(sink: seq<Snapshot>, collected: seq<WindowStats>)
    requires Proper(sink) && DistinctIds(collected)
    ensures Starts(Flatten(sink + WriteSpec(collected))) == Starts(Flatten(sink)) + Starts(collected)
    ensures Ascending(sink + WriteSpec(collected)) <==> Ascending(sink) && Below(Starts(Flatten(sink)), Starts(collected))
  {
    var blocks := WriteSpec(collected);
    WriteStarts(collected);
    FlattenConcat(sink, blocks);
    StartsConcat(Flatten(sink), Flatten(blocks));
    AscendingConcat(sink, blocks);
    AfterIsBelow(sink, blocks);
    hide *;
  }

  // ------------------------------------------------------------ steps that move nothing

  /** Only the writer's own position may change, from waiting to the start of a flush or to its exit. */
  ghost predicate SameHistory(s: State, s': State) {
    && s'.settled == s.settled && s'.late == s.late && s'.overtaken == s.overtaken
    && (s'.stopper.Stopped? <==> s.stopper.Stopped?)
    && ((s'.writer == s.writer && s'.passed == s.passed)
        || (s.writer.Waiting? && s'.writer.WriterExited? && s'.passed == s.passed)
        || (s.writer.Waiting? && s'.writer.Flushing? && s'.writer.next == 0 && s'.writer.collected == [] && s'.passed == {}))
  }

  lemma StageHistory(cfg: Config, s: State, e: Event)
    requires cfg.Valid() && Enabled(cfg, s, e) && IsStageStep(e) && !e.AggregatorAdd?
    ensures SameHistory(s, Apply(cfg, s, e))
  {
  }

  lemma QuietHistory(cfg: Config, s: State, e: Event)
    requires cfg.Valid() && Enabled(cfg, s, e) && !IsStageStep(e) && !MovesContents(e)
    ensures SameHistory(s, Apply(cfg, s, e))
  {
    hide WindowStart;
  }

  lemma SameVisited(s: State, s': State)
    requires Untouched(s, s') && SameHistory(s, s') && Visited(s)
    ensures Visited(s')
  {
    if s'.writer.Flushing? && s'.writer == s.writer {
      SameShardStarts(Behind(s), Behind(s'));
    }
  }

  lemma SameMarks(s: State, s': State)
    requires Untouched(s, s') && SameHistory(s, s') && ShardMarks(s) && UnderMarks(s)
    ensures ShardMarks(s') && UnderMarks(s')
  {
    hide Flatten;
    forall i | 0 <= i < |s'.shards|
      ensures s'.shards[i].mark == MarkOf(s', i)
    {
      assert SameWindows(s.shards[i], s'.shards[i]);
    }
  }

  lemma QuietOrder(cfg: Config, s: State, e: Event)
    requires cfg.Valid() && Control(cfg, s) && Order(s) && Enabled(cfg, s, e) && !MovesContents(e)
    ensures Order(Apply(cfg, s, e))
  {
    hide Enabled, Apply, Control, Visited, ShardMarks, UnderMarks, Starts, Flatten, Below, Ascending, Unwritten;
    var s' := Apply(cfg, s, e);
    UntouchedStep(cfg, s, e);
    if IsStageStep(e) {
      StageHistory(cfg, s, e);
    } else {
      QuietHistory(cfg, s, e);
    }
    SameVisited(s, s');
    SameMarks(s, s');
    SameShardStarts(s.shards, s'.shards);
  }

  // ------------------------------------------------------------ adding a trade

  lemma BelowUnion(a: set<nat>, b: set<nat>, c: set<nat>)
    ensures Below(a + b, c) <==> Below(a, c) && Below(b, c)
    ensures Below(a, b + c) <==> Below(a, b) && Below(a, c)
  {
  }

  /** Nothing written starts at or after the window of a trade exactly if the window comes after all written. */
  lemma ReachesIsNotBelow(a: set<nat>, start: nat)
    ensures Reaches(a, start) <==> !Below(a, {start})
  {
    if !Below(a, {start}) {
      var x, y :| x in a && y in {start} && !(x < y);
      assert x in a && start <= x;
    }
  }

  lemma AddInOrder(cfg: Config, s: State, i: nat)
    requires cfg.Valid() && i < |s.shards| && s.shards[i].hand.Some? && (s.overtaken <==> !InOrder(s))
    ensures var s' := AddInShard(cfg, s, i); s'.overtaken <==> !InOrder(s')
  {
    var s', sh := AddInShard(cfg, s, i), s.shards[i];
    var start := WindowStart(sh.hand.value.time, cfg.window);
    AddStarts(sh.windows, cfg.window, sh.hand.value);
    hide AddTrade, WindowStart, Starts, Flatten, KeyStarts, Reaches, Below, Ascending, ShardStarts;
    SetShardStarts(s.shards, i, s'.shards[i], {start});
    assert Awaited(s') == Awaited(s) + {start};
    BelowUnion(Written(s), Awaited(s), {start});
    ReachesIsNotBelow(Written(s), start);
  }

  lemma AddVisited(cfg: Config, s: State, i: nat)
    requires cfg.Valid() && i < |s.shards| && s.shards[i].hand.Some? && Visited(s)
    ensures Visited(AddInShard(cfg, s, i))
  {
    var s', sh := AddInShard(cfg, s, i), s.shards[i];
    var start := WindowStart(sh.hand.value.time, cfg.window);
    AddStarts(sh.windows, cfg.window, sh.hand.value);
    hide AddTrade, WindowStart, Starts, Flatten, KeyStarts, Reaches, ShardStarts;
    if s.writer.Flushing? {
      var behind := Behind(s);
      if i < |behind| {
        SetShardStarts(behind, i, s'.shards[i], {start});
        assert Behind(s') == behind[i := s'.shards[i]];
      } else {
        assert Behind(s') == behind;
      }
    }
  }

  lemma AddMarks(cfg: Config, s: State, i: nat)
    requires cfg.Valid() && i < |s.shards| && s.shards[i].hand.Some? && ShardMarks(s) && UnderMarks(s) && LateFree(s)
    requires !s.stopper.Stopped?
    ensures var s' := AddInShard(cfg, s, i); ShardMarks(s') && UnderMarks(s') && LateFree(s')
  {
    hide AddTrade, WindowStart, Starts, Flatten;
    assert s.shards[i].mark == MarkOf(s, i);
  }

  lemma AddOrder(cfg: Config, s: State, i: nat)
    requires cfg.Valid() && Order(s) && i < |s.shards| && s.shards[i].hand.Some? && !s.stopper.Stopped?
    ensures Order(AddInShard(cfg, s, i))
  {
    hide AddInShard, ShardMarks, UnderMarks, LateFree, Visited, InOrder;
    AddInOrder(cfg, s, i);
    AddVisited(cfg, s, i);
    AddMarks(cfg, s, i);
  }

  // ------------------------------------------------------------ extracting a shard

  /** What the extraction takes from the shard the flush has collected, so nothing awaited changes. */
  lemma ExtractInOrder(s: State, result: seq<WindowStats>, part: Windows, rest: Windows, i: nat, s': State)
    requires i < |s.shards| && Enumerates(result, part) && (forall k :: k in part ==> part[k].Id() == k)
    requires KeyStarts(rest) + KeyStarts(part) == KeyStarts(s.shards[i].windows)
    requires |s'.shards| == |s.shards| && s'.shards == s.shards[i := s'.shards[i]] && s'.shards[i].windows == rest
    requires s'.sink == s.sink && Unwritten(s') == Unwritten(s) + result
    ensures InOrder(s') <==> InOrder(s)
  {
    EnumeratedStarts(result, part);
    StartsConcat(Unwritten(s), result);
    hide Starts, Flatten, KeyStarts, Below, Ascending, ShardStarts, Enumerates, Unwritten;
    SetShardStarts(s.shards, i, s'.shards[i], KeyStarts(part));
    assert Awaited(s') == Awaited(s);
  }

  ghost predicate Extracts(cfg: Config, s: State, result: seq<WindowStats>)
    requires cfg.Valid()
  {
    && s.writer.Flushing? && s.writer.next < |s.shards| && ShardsContents(cfg, s)
    && Enumerates(result, Before(s.shards[s.writer.next].windows, s.writer.mark))
  }

  lemma FlushExtractInOrder(cfg: Config, s: State, result: seq<WindowStats>)
    requires cfg.Valid() && Extracts(cfg, s, result)
    ensures InOrder(ExtractShard(s, result)) <==> InOrder(s)
    ensures Starts(result) == KeyStarts(Before(s.shards[s.writer.next].windows, s.writer.mark))
  {
    var i, mark := s.writer.next, s.writer.mark;
    var windows := s.shards[i].windows;
    assert ShardContents(cfg, i, windows);
    SplitStarts(windows, mark);
    EnumeratedStarts(result, Before(windows, mark));
    var part := Before(windows, mark);
    assert forall k :: k in part ==> part[k].Id() == k;
    hide InOrder, Enumerates, NotBefore, Before, KeyStarts, Starts;
    ExtractInOrder(s, result, part, NotBefore(windows, mark), i, ExtractShard(s, result));
  }

  lemma FlushExtractVisited(s: State, result: seq<WindowStats>)
    requires s.writer.Flushing? && s.writer.next < |s.shards| && Visited(s)
    ensures Visited(ExtractShard(s, result))
  {
    var i, s' := s.writer.next, ExtractShard(s, result);
    SplitStarts(s.shards[i].windows, s.writer.mark);
    hide NotBefore, KeyStarts;
    assert Behind(s')[..i] == Behind(s);
    assert ShardStarts(Behind(s')) == ShardStarts(Behind(s)) + KeyStarts(Behind(s')[i].windows);
  }

  lemma FlushExtractMarks(cfg: Config, s: State, result: seq<WindowStats>)
    requires cfg.Valid() && Extracts(cfg, s, result) && ShardMarks(s) && UnderMarks(s)
    ensures ShardMarks(ExtractShard(s, result)) && UnderMarks(ExtractShard(s, result))
  {
    FlushExtractInOrder(cfg, s, result);
    SplitStarts(s.shards[s.writer.next].windows, s.writer.mark);
    StartsConcat(s.writer.collected, result);
    hide Starts, KeyStarts, NotBefore, Before, Enumerates, Flatten, ShardsContents;
    assert s.shards[s.writer.next].mark == MarkOf(s, s.writer.next);
  }

  lemma FlushExtractOrder(cfg: Config, s: State, result: seq<WindowStats>)
    requires cfg.Valid() && Order(s) && Extracts(cfg, s, result)
    ensures Order(ExtractShard(s, result))
  {
    FlushExtractInOrder(cfg, s, result);
    FlushExtractVisited(s, result);
    FlushExtractMarks(cfg, s, result);
    hide Extracts, InOrder, ShardMarks, UnderMarks, Visited;
  }

  lemma FinalExtractOrder(cfg: Config, s: State, result: seq<WindowStats>)
    requires cfg.Valid() && ThreadControl(cfg, s) && ShardsContents(cfg, s) && Order(s)
    requires s.stopper.FinalFlush? && s.stopper.next < |s.shards| && Enumerates(result, s.shards[s.stopper.next].windows)
    ensures Order(FinalExtractShard(s, result))
  {
    var i, s' := s.stopper.next, FinalExtractShard(s, result);
    var windows := s.shards[i].windows;
    assert ShardContents(cfg, i, windows);
    assert KeyStarts(map[]) + KeyStarts(windows) == KeyStarts(windows);
    hide InOrder, Enumerates, KeyStarts, Starts, Flatten, ShardsContents, Visited, ShardMarks;
    ExtractInOrder(s, result, windows, map[], i, s');
    FinalExtractMarks(s, result);
  }

  lemma FinalExtractMarks(s: State, result: seq<WindowStats>)
    requires s.stopper.FinalFlush? && s.stopper.next < |s.shards| && s.writer.WriterExited? && ShardMarks(s)
    ensures ShardMarks(FinalExtractShard(s, result)) && Visited(FinalExtractShard(s, result))
  {
  }

  // ------------------------------------------------------------ writing

  /** At the end of a flush, what was collected starts before all that is held unless a trade was overtaken. */
  lemma CollectedBelowHeld(s: State)
    requires s.writer.Flushing? && s.writer.next == |s.shards| && Visited(s) && UnderMarks(s)
    ensures Below(Starts(s.writer.collected), ShardStarts(s.shards)) <==>
              !exists p :: p in s.passed && Reaches(Starts(s.writer.collected), p)
  {
    hide Starts, KeyStarts, Flatten, ShardStarts;
    var collected, held := Starts(s.writer.collected), ShardStarts(s.shards);
    assert Behind(s) == s.shards;
    if !exists p :: p in s.passed && Reaches(collected, p) {
      forall v, w | v in collected && w in held
        ensures v < w
      {
        ShardStartsMeaning(s.shards, w);
        var i :| 0 <= i < |s.shards| && w in KeyStarts(s.shards[i].windows);
        assert LeftBehind(s.shards[i].windows, s.writer.mark, s.passed);
        if w in s.passed {
          assert !Reaches(collected, w);
        }
      }
    }
  }

  lemma FlushWriteInOrder(s: State)
    requires s.writer.Flushing? && s.writer.next == |s.shards| && Visited(s) && UnderMarks(s)
    requires Proper(s.sink) && DistinctIds(s.writer.collected) && !s.stopper.FinalFlush? && (s.overtaken <==> !InOrder(s))
    ensures WriteFlush(s).overtaken <==> !InOrder(WriteFlush(s))
    ensures Written(WriteFlush(s)) == Written(s) + Starts(s.writer.collected)
  {
    hide Visited, UnderMarks, Flatten, Starts, ShardStarts, WriteSpec, Below, Ascending, Reaches, Proper, DistinctIds;
    var s', collected, held := WriteFlush(s), Starts(s.writer.collected), ShardStarts(s.shards);
    AppendFlush(s.sink, s.writer.collected);
    CollectedBelowHeld(s);
    EmptyStarts();
    assert Awaited(s') == held && Awaited(s) == collected + held;
    BelowUnion(Written(s), collected, held);
  }

  lemma EmptyStarts()
    ensures Starts([]) == {}
  {
  }

  lemma FlushWriteOrder(s: State)
    requires s.writer.Flushing? && s.writer.next == |s.shards| && Order(s)
    requires Proper(s.sink) && DistinctIds(s.writer.collected) && !s.stopper.FinalFlush? && !s.stopper.Stopped?
    ensures Order(WriteFlush(s))
  {
    FlushWriteInOrder(s);
    hide InOrder, Flatten, Starts, ShardStarts, WriteSpec, Written;
  }

  /** After the last extraction the shards are empty. */
  lemma {:induction false} NoneHeld(shards: seq<Shard>)
    requires forall i :: 0 <= i < |shards| ==> shards[i].windows == map[]
    ensures ShardStarts(shards) == {}
  {
    if shards != [] {
      NoneHeld(shards[..|shards| - 1]);
    }
  }

  lemma FinalWriteOrder(s: State)
    requires s.stopper.FinalFlush? && s.writer.WriterExited? && Order(s)
    requires Proper(s.sink) && DistinctIds(s.stopper.collected)
    requires forall i :: 0 <= i < |s.shards| ==> s.shards[i].windows == map[]
    ensures Order(s.(stopper := Stopped, sink := s.sink + WriteSpec(s.stopper.collected)))
  {
    AppendFlush(s.sink, s.stopper.collected);
    NoneHeld(s.shards);
    EmptyStarts();
    hide Flatten, Starts, ShardStarts, WriteSpec, Ascending, Proper, DistinctIds;
  }

  // ------------------------------------------------------------ every step

  lemma FinalHeldNothing(cfg: Config, s: State)
    requires cfg.Valid() && Control(cfg, s) && s.stopper.FinalFlush? && s.stopper.next == |s.shards|
    ensures forall i :: 0 <= i < |s.shards| ==> s.shards[i].windows == map[]
  {
    forall i | 0 <= i < |s.shards|
      ensures s.shards[i].windows == map[]
    {
      assert ShardControl(cfg, s.stopper, i, s.shards[i]);
    }
  }

  /** A trade is only added while `stop()` has not joined its shard. */
  lemma AddIsEarly(cfg: Config, s: State, i: nat)
    requires cfg.Valid() && Control(cfg, s) && i < |s.shards| && s.shards[i].hand.Some?
    ensures !s.stopper.Stopped?
  {
    assert ShardControl(cfg, s.stopper, i, s.shards[i]);
  }

  lemma MoveOrder(cfg: Config, s: State, e: Event)
    requires cfg.Valid() && Control(cfg, s) && Contents(cfg, s) && Order(s) && Enabled(cfg, s, e) && MovesContents(e)
    ensures Order(Apply(cfg, s, e))
  {
    hide Order, Balanced, Enumerates, AddInShard, ExtractShard, FinalExtractShard, WriteFlush, WriteSpec, AllSound,
         ShardsControl, ShardsContents, Before;
    if e.AggregatorAdd? {
      AddIsEarly(cfg, s, e.i);
      AddOrder(cfg, s, e.i);
    } else if e.FlushExtract? {
      FlushExtractOrder(cfg, s, e.result);
    } else if e.FinalExtract? {
      FinalExtractOrder(cfg, s, e.result);
    } else if e.FlushWrite? {
      FlushWriteOrder(s);
    } else {
      FinalHeldNothing(cfg, s);
      FinalWriteOrder(s);
    }
  }

  /** Every step keeps the order, or records that a trade was overtaken. */
  lemma StepOrder(cfg: Config, s: State, e: Event)
    requires cfg.Valid() && Control(cfg, s) && Contents(cfg, s) && Order(s) && Enabled(cfg, s, e)
    ensures Order(Apply(cfg, s, e))
  {
    hide Order, Control, Contents, Enabled, Apply;
    if MovesContents(e) {
      MoveOrder(cfg, s, e);
    } else {
      QuietOrder(cfg, s, e);
    }
  }
}
