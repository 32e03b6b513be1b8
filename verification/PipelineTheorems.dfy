/**
 What every run of the pipeline guarantees: nothing is lost, nothing is counted twice, and the
 output is the one-shot aggregate of the accepted trades exactly if no trade was overtaken,
 whatever the number of shards, the hash, the capacities, the interleaving and the flush schedule.
 */
module PipelineTheorems {
  import opened Options
  import opened Statistics
  import opened Ordering
  import opened Snapshots
  import opened Serializer
  import opened Pipeline
  import opened PipelineHistory
  import opened PipelineControl
  import opened PipelineContents
  import opened PipelineOrder

  // ------------------------------------------------------------ the invariant of every run

  ghost predicate Inv(cfg: Config, s: State)
    requires cfg.Valid()
  {
    && Control(cfg, s)
    && HandOff(cfg, s)
    && Contents(cfg, s)
    && Order(s)
  }

  lemma InitialInv(cfg: Config)
    requires cfg.Valid()
    ensures Inv(cfg, Initial(cfg))
  {
    InitialControl(cfg);
    InitialHandOff(cfg);
    InitialContents(cfg);
    InitialOrder(cfg);
  }

  lemma StepInv(cfg: Config, s: State, e: Event)
    requires cfg.Valid() && Inv(cfg, s) && Enabled(cfg, s, e)
    ensures Inv(cfg, Apply(cfg, s, e))
  {
    hide Enabled, Apply, Control, HandOff, Contents, Order;
    StepControl(cfg, s, e);
    StepHandOff(cfg, s, e);
    StepContents(cfg, s, e);
    StepOrder(cfg, s, e);
  }

  lemma {:induction false} RunInv(cfg: Config, s: State, es: seq<Event>, s': State)
    requires cfg.Valid() && Inv(cfg, s) && Runs(cfg, s, es, s')
    ensures Inv(cfg, s')
    decreases |es|
  {
    if es != [] {
      StepInv(cfg, s, es[0]);
      hide Inv, Enabled, Apply;
      RunInv(cfg, Apply(cfg, s, es[0]), es[1..], s');
    }
  }

  /** After the events the pipeline has reached the state, and accepted exactly what they submitted. */
  lemma AfterRun(cfg: Config, es: seq<Event>, s: State)
    requires cfg.Valid() && Runs(cfg, Initial(cfg), es, s)
    ensures Inv(cfg, s) && Reachable(cfg, s) && s.accepted == Submitted(es)
  {
    hide Inv;
    InitialInv(cfg);
    RunInv(cfg, Initial(cfg), es, s);
    AcceptedIsSubmitted(cfg, es, s);
  }

  lemma ReachableInv(cfg: Config, s: State)
    requires cfg.Valid() && Reachable(cfg, s)
    ensures Inv(cfg, s)
  {
    hide Inv, Runs;
    var es :| Runs(cfg, Initial(cfg), es, s);
    AfterRun(cfg, es, s);
  }

  // ------------------------------------------------------------ hand-off

  lemma AppendFive<T>(a: seq<T>, b: seq<T>, c: seq<T>, d: seq<T>, e: seq<T>)
    ensures a + b + c + d + e == a + (b + (c + (d + e)))
  {
  }

  /**
   At every point of every run and for every shard: trades added, in hand, queued, held by the
   parser and still to be parsed are, in order, the shard's share of the messages submitted with
   success; and the parser, which ignores the result, has never had a push refused.
   */
  lemma NothingLostOnTheWay(cfg: Config, es: seq<Event>, s: State)
    requires cfg.Valid() && Runs(cfg, Initial(cfg), es, s)
    ensures s.lost == []
    ensures |s.shards| == cfg.ShardCount()
    ensures forall i :: 0 <= i < |s.shards| ==>
      s.shards[i].ingested + InHand(s.shards[i]) + s.shards[i].queue.items + HeldFor(cfg, s.parser, i) + Feed(cfg, s.raw.items, i)
      == Feed(cfg, Submitted(es), i)
  {
    AfterRun(cfg, es, s);
    hide Contents, Order, Feed, HeldFor, Reachable, Runs, Submitted;
    forall i | 0 <= i < |s.shards|
      ensures s.shards[i].ingested + InHand(s.shards[i]) + s.shards[i].queue.items + HeldFor(cfg, s.parser, i) + Feed(cfg, s.raw.items, i)
              == Feed(cfg, Submitted(es), i)
    {
      var sh := s.shards[i];
      assert Handed(cfg, i, sh, s.parser, s.raw.items, s.accepted);
      AppendFive(sh.ingested, InHand(sh), sh.queue.items, HeldFor(cfg, s.parser, i), Feed(cfg, s.raw.items, i));
    }
  }

  // ------------------------------------------------------------ losslessness

  /** Routing does not separate the trades of a bucket. */
  lemma {:induction false} FeedTally(cfg: Config, msgs: seq<Message>, k: Key)
    requires cfg.Valid()
    ensures TallyTrades(Feed(cfg, msgs, cfg.ShardOf(k.symbol)), cfg.window, k) == TallyTrades(Trades(cfg, msgs), cfg.window, k)
  {
    if msgs != [] {
      var init, m, i := msgs[..|msgs| - 1], msgs[|msgs| - 1], cfg.ShardOf(k.symbol);
      FeedTally(cfg, init, k);
      match cfg.parse(m)
      case None =>
        assert Feed(cfg, init, i) + [] == Feed(cfg, init, i);
        assert Trades(cfg, init) + [] == Trades(cfg, init);
      case Some(t) =>
        TallyTradesSnoc(Trades(cfg, init), t, cfg.window, k);
        if cfg.ShardOf(t.symbol) == i {
          TallyTradesSnoc(Feed(cfg, init, i), t, cfg.window, k);
        } else {
          assert Feed(cfg, init, i) + [] == Feed(cfg, init, i);
          assert Pick(Single(t, cfg.window), k) == None;
        }
    }
  }

  /** After `stop()` every shard has added everything that was accepted for it. */
  lemma StoppedIsDrained(cfg: Config, s: State, i: nat)
    requires cfg.Valid() && Control(cfg, s) && HandOff(cfg, s) && s.stopper.Stopped? && i < |s.shards|
    ensures s.shards[i].ingested == Feed(cfg, s.accepted, i) && s.shards[i].windows == map[]
    ensures Unwritten(s) == []
  {
    var sh := s.shards[i];
    assert ShardControl(cfg, s.stopper, i, sh);
    assert Handed(cfg, i, sh, s.parser, s.raw.items, s.accepted);
    assert Feed(cfg, s.raw.items, i) == [];
    hide Feed;
    assert sh.ingested + ([] + ([] + ([] + []))) == sh.ingested;
  }

  /**
   Lossless in every run, late trades included: after `stop()`, merging all lines written for a
   bucket gives exactly the aggregate of the valid trades of that bucket among the messages whose
   submission succeeded in the run.
   */
  lemma Lossless(cfg: Config, es: seq<Event>, s: State, k: Key)
    requires cfg.Valid() && Runs(cfg, Initial(cfg), es, s) && s.stopper.Stopped?
    ensures TallyLines(Flatten(s.sink), k) == TallyTrades(Trades(cfg, Submitted(es)), cfg.window, k)
  {
    hide Runs, Reachable, Submitted, Flatten, TallyLines, Feed, Trades, TallyTrades, Order, HandOff, ShardsControl,
         ShardsContents, CollectedOnce, SortedBlocks, AllSound;
    AfterRun(cfg, es, s);
    StoppedIsDrained(cfg, s, cfg.ShardOf(k.symbol));
    assert Balanced(cfg, s, k);
    FeedTally(cfg, s.accepted, k);
    assert AllLines(s) == Flatten(s.sink);
  }

  // ------------------------------------------------------------ the canonical output

  /** The output of one aggregator given all trades at once. */
  function Canonical(cfg: Config, msgs: seq<Message>): seq<Snapshot>
    requires cfg.Valid()
  {
    Blocks(OneShot(Trades(cfg, msgs), cfg.window))
  }

  lemma SortedSinkIsCanonical(cfg: Config, es: seq<Event>, s: State)
    requires cfg.Valid() && Runs(cfg, Initial(cfg), es, s) && s.stopper.Stopped?
    requires Sorted(Flatten(s.sink)) && s.sink == Blocks(Flatten(s.sink))
    ensures s.sink == Canonical(cfg, Submitted(es))
  {
    hide Runs, Submitted;
    var lines, oneShot := Flatten(s.sink), OneShot(Trades(cfg, Submitted(es)), cfg.window);
    OneShotMeaning(Trades(cfg, Submitted(es)), cfg.window);
    forall k
      ensures TallyLines(lines, k) == TallyLines(oneShot, k)
    {
      Lossless(cfg, es, s, k);
    }
    SortedUnique(lines, oneShot);
  }

  /**
   In every run the output is canonical exactly when its blocks have strictly increasing window
   starts: it can only differ by a window written again or out of order.
   */
  lemma CanonicalIffAscending(cfg: Config, es: seq<Event>, s: State)
    requires cfg.Valid() && Runs(cfg, Initial(cfg), es, s) && s.stopper.Stopped?
    ensures s.sink == Canonical(cfg, Submitted(es)) <==> Ascending(s.sink)
  {
    hide Runs, Submitted;
    if Ascending(s.sink) {
      AfterRun(cfg, es, s);
      FlattenSorted(s.sink);
      FlattenBlocks(s.sink);
      SortedSinkIsCanonical(cfg, es, s);
    }
    if s.sink == Canonical(cfg, Submitted(es)) {
      OneShotMeaning(Trades(cfg, Submitted(es)), cfg.window);
      StartsOfBlocks(OneShot(Trades(cfg, Submitted(es)), cfg.window));
    }
  }

  /** After `stop()` nothing is awaited any more. */
  lemma StoppedInOrder(cfg: Config, s: State)
    requires cfg.Valid() && Control(cfg, s) && s.stopper.Stopped?
    ensures InOrder(s) <==> Ascending(s.sink)
  {
    forall i | 0 <= i < |s.shards|
      ensures s.shards[i].windows == map[]
    {
      assert ShardControl(cfg, s.stopper, i, s.shards[i]);
    }
    NoneHeld(s.shards);
    EmptyStarts();
    hide Starts, ShardStarts, Flatten, Ascending;
  }

  /**
   In every run the output is canonical if and only if no trade was overtaken: none was added to
   a window starting no later than one already written, nor behind a flush in progress that then
   wrote a window starting no earlier.
   */
  lemma CanonicalIffNotOvertaken(cfg: Config, es: seq<Event>, s: State)
    requires cfg.Valid() && Runs(cfg, Initial(cfg), es, s) && s.stopper.Stopped?
    ensures s.sink == Canonical(cfg, Submitted(es)) <==> !s.overtaken
  {
    hide Canonical, Runs, Submitted, Reachable, HandOff, Contents, Control, InOrder, Ascending;
    AfterRun(cfg, es, s);
    CanonicalIffAscending(cfg, es, s);
    StoppedInOrder(cfg, s);
  }

  /** A run without late trades overtakes none, so it writes exactly the canonical output. */
  lemma LateFreeIsCanonical(cfg: Config, es: seq<Event>, s: State)
    requires cfg.Valid() && Runs(cfg, Initial(cfg), es, s) && !s.late
    ensures !s.overtaken
    ensures s.stopper.Stopped? ==> s.sink == Canonical(cfg, Submitted(es))
  {
    hide Canonical, Runs, Submitted, Reachable, HandOff, Contents, Control, InOrder, Ascending;
    AfterRun(cfg, es, s);
    if s.stopper.Stopped? {
      CanonicalIffNotOvertaken(cfg, es, s);
    }
  }

  /**
   Two runs in which no trade was overtaken, with any shard counts, hashes, capacities,
   interleavings and flush schedules, that had the same valid trades submitted in any order, write
   the same blocks and so the same text.
   */
  lemma OutputIndependentOfSharding(c: Config, es: seq<Event>, s: State, d: Config, fs: seq<Event>, t: State, f: Format)
    requires c.Valid() && Runs(c, Initial(c), es, s) && s.stopper.Stopped? && !s.overtaken
    requires d.Valid() && Runs(d, Initial(d), fs, t) && t.stopper.Stopped? && !t.overtaken
    requires c.window == d.window && multiset(Trades(c, Submitted(es))) == multiset(Trades(d, Submitted(fs)))
    ensures s.sink == t.sink && SinkText(f, s.sink) == SinkText(f, t.sink)
  {
    hide Runs, Submitted;
    CanonicalIffNotOvertaken(c, es, s);
    CanonicalIffNotOvertaken(d, fs, t);
    OneShotPermutation(Trades(c, Submitted(es)), Trades(d, Submitted(fs)), c.window);
  }

  /**
   What a flush writes does not depend on the sort: in every reachable state any blocks that meet
   the contract of `Snapshots.WriteWindows` for the collected windows are those of the write step.
   */
  lemma WriteIsDetermined(cfg: Config, s: State, blocks: seq<Snapshot>)
    requires cfg.Valid() && Reachable(cfg, s)
    requires Proper(blocks) && Ascending(blocks) && AllOrdered(blocks)
    requires multiset(Flatten(blocks)) == multiset(Unwritten(s))
    ensures blocks == WriteSpec(Unwritten(s))
  {
    ReachableInv(cfg, s);
    hide Reachable, HandOff, Control, Order, Flatten, WriteSpec, Balanced, ShardsContents, SortedBlocks, AllSound,
         Proper, Ascending, AllOrdered, Unwritten;
    WriteUnique(Unwritten(s), blocks);
  }

  // ------------------------------------------------------------ order while running

  /** At every point of a run in which no trade was overtaken the written window starts strictly increase. */
  lemma WrittenInOrder(cfg: Config, s: State)
    requires cfg.Valid() && Reachable(cfg, s) && !s.overtaken
    ensures Ascending(s.sink)
  {
    ReachableInv(cfg, s);
  }

  ghost predicate WholeSecondsIncrease(window: nat)
    requires window > 0
  {
    forall a: nat, b: nat :: a % window == 0 && b % window == 0 && a < b ==> a / 1000 < b / 1000
  }

  /** Window starts that differ are a window apart, so they differ in the printed second from 1000 ms up. */
  lemma WholeSecondsIff(window: nat)
    requires window > 0
    ensures WholeSecondsIncrease(window) <==> window >= 1000
  {
    if window >= 1000 {
      forall a: nat, b: nat | a % window == 0 && b % window == 0 && a < b
        ensures a / 1000 < b / 1000
      {
        ApartByWindow(a, b, window);
      }
    } else {
      assert 0 % window == 0 && window % window == 0;
      assert 0 / 1000 == window / 1000;
    }
  }

  /** The window of a block is the window of its lines, a multiple of the window length. */
  lemma BlockStarts(cfg: Config, s: State, i: nat)
    requires cfg.Valid() && Inv(cfg, s) && i < |s.sink|
    ensures s.sink[i].Valid() && s.sink[i].start % cfg.window == 0
  {
    hide Control, Order, HandOff, Balanced, ShardsContents, CollectedOnce, Sorted;
    SoundBlock(s.sink, Unwritten(s), cfg.window, i);
  }

  lemma SoundBlock(sink: seq<Snapshot>, more: seq<WindowStats>, window: nat, i: nat)
    requires window > 0 && i < |sink| && Proper(sink) && AllSound(Flatten(sink) + more, window)
    ensures sink[i].Valid() && sink[i].start % window == 0
  {
    hide Flatten;
    var n := FlattenSlice(sink, i);
    assert sink[i].Valid();
    assert (Flatten(sink) + more)[n] == sink[i].lines[0];
    assert sink[i].lines[0].Sound(window);
  }

  /** With windows of at least a second, the printed time stamps strictly increase as well. */
  lemma PrintedInOrder(cfg: Config, s: State)
    requires cfg.Valid() && Reachable(cfg, s) && !s.overtaken && cfg.window >= 1000
    ensures forall i, j :: 0 <= i < j < |s.sink| ==> s.sink[i].start / 1000 < s.sink[j].start / 1000
  {
    ReachableInv(cfg, s);
    WrittenInOrder(cfg, s);
    WholeSecondsIff(cfg.window);
    hide Inv;
    forall i, j | 0 <= i < j < |s.sink|
      ensures s.sink[i].start / 1000 < s.sink[j].start / 1000
    {
      BlockStarts(cfg, s, i);
      BlockStarts(cfg, s, j);
    }
  }

  // ------------------------------------------------------------ reading the text back

  /** What a reader needs of the lines: symbols without a space, decimals that can be printed. */
  ghost predicate Readable(s: State) {
    AllDecodable(Flatten(s.sink))
  }

  lemma BlocksReadable(cfg: Config, s: State)
    requires cfg.Valid() && Inv(cfg, s) && Readable(s)
    ensures AllReadable(s.sink)
  {
    hide Inv, AllDecodable, Flatten;
    forall i | 0 <= i < |s.sink|
      ensures s.sink[i].lines != [] && AllDecodable(s.sink[i].lines)
    {
      BlockStarts(cfg, s, i);
      BlockDecodableLines(s.sink, i);
    }
  }

  lemma BlockDecodableLines(sink: seq<Snapshot>, i: nat)
    requires i < |sink| && AllDecodable(Flatten(sink))
    ensures AllDecodable(sink[i].lines)
  {
    hide Flatten, Decodable;
    var n := FlattenSlice(sink, i);
    forall j | 0 <= j < |sink[i].lines|
      ensures Decodable(sink[i].lines[j])
    {
      assert sink[i].lines[j] == Flatten(sink)[n + j];
    }
  }

  lemma SameBlockIsEqual(a: Snapshot, b: Snapshot)
    requires SameBlock(a, b) && a.Valid() && b.Valid() && a.start == b.start
    ensures a == b
  {
  }

  /** With windows of at least a second, two sinks with the same text hold the same blocks. */
  lemma TextDeterminesSink(c: Config, s: State, d: Config, t: State, f: Format)
    requires c.Valid() && Reachable(c, s) && Readable(s)
    requires d.Valid() && Reachable(d, t) && Readable(t)
    requires Good(f) && c.window == d.window >= 1000 && SinkText(f, s.sink) == SinkText(f, t.sink)
    ensures s.sink == t.sink
  {
    hide Inv, Good, SinkText, Reachable, Readable;
    ReachableInv(c, s);
    ReachableInv(d, t);
    BlocksReadable(c, s);
    BlocksReadable(d, t);
    SinkDecodable(f, s.sink, t.sink);
    WholeSecondsIff(c.window);
    forall i | 0 <= i < |s.sink|
      ensures s.sink[i] == t.sink[i]
    {
      BlockStarts(c, s, i);
      BlockStarts(d, t, i);
      hide AllReadable, SameLines;
      assert SameBlock(s.sink[i], t.sink[i]);
      assert s.sink[i].start == t.sink[i].start;
      SameBlockIsEqual(s.sink[i], t.sink[i]);
    }
  }

  /** So the text left by a stopped pipeline determines the aggregate of every bucket, late trades included. */
  lemma TextDeterminesAggregates(c: Config, es: seq<Event>, s: State, d: Config, fs: seq<Event>, t: State, f: Format, k: Key)
    requires c.Valid() && Runs(c, Initial(c), es, s) && Readable(s) && s.stopper.Stopped?
    requires d.Valid() && Runs(d, Initial(d), fs, t) && Readable(t) && t.stopper.Stopped?
    requires Good(f) && c.window == d.window >= 1000 && SinkText(f, s.sink) == SinkText(f, t.sink)
    ensures TallyTrades(Trades(c, Submitted(es)), c.window, k) == TallyTrades(Trades(d, Submitted(fs)), d.window, k)
  {
    hide Good, SinkText, Reachable, Runs, Submitted, TallyLines, TallyTrades, Inv, Readable;
    AfterRun(c, es, s);
    AfterRun(d, fs, t);
    TextDeterminesSink(c, s, d, t, f);
    Lossless(c, es, s, k);
    Lossless(d, fs, t, k);
  }

  // ------------------------------------------------------------ what a flush takes

  /** Every line written before the final flush, or collected for writing, is of a window that was over when some flush began. */
  lemma FlushedIsDue(cfg: Config, es: seq<Event>, s: State)
    requires cfg.Valid() && Runs(cfg, Initial(cfg), es, s) && !s.stopper.Stopped?
    ensures forall x :: x in Flatten(s.sink) ==> Due(cfg, es, x.start)
    ensures s.writer.Flushing? ==> forall x :: x in s.writer.collected ==> Due(cfg, es, x.start)
  {
    AfterRun(cfg, es, s);
    RunMarked(cfg, es, s);
    hide Runs, Reachable, Due, Settled, Flatten, Control, HandOff, Balanced, ShardsContents, SortedBlocks, ShardMarks, Visited,
         InOrder, LateFree, WindowStart, Submitted;
    forall x | x in Flatten(s.sink)
      ensures Due(cfg, es, x.start)
    {
      LineOfState(cfg, s, x);
      assert x.start in Written(s);
      BeforeMarkIsDue(cfg, es, s.settled, x.start);
    }
    if s.writer.Flushing? {
      forall x | x in s.writer.collected
        ensures Due(cfg, es, x.start)
      {
        LineOfState(cfg, s, x);
        assert x.start in Starts(s.writer.collected);
        BeforeMarkIsDue(cfg, es, s.writer.mark, x.start);
      }
    }
  }

  lemma LineOfState(cfg: Config, s: State, x: WindowStats)
    requires cfg.Valid() && AllSound(AllLines(s), cfg.window) && (x in Flatten(s.sink) || x in Unwritten(s))
    ensures x.start % cfg.window == 0
  {
    hide Flatten, Unwritten;
    assert x in AllLines(s);
    var i :| 0 <= i < |AllLines(s)| && AllLines(s)[i] == x;
    assert AllLines(s)[i].Sound(cfg.window);
  }

  /**
   When a flush extracts a shard, exactly the windows that were over at the flush's clock reading
   go into its result, unchanged, and exactly the others stay, unchanged.
   */
  lemma FlushTakesDue(cfg: Config, es: seq<Event>, s: State, result: seq<WindowStats>)
    requires cfg.Valid() && Runs(cfg, Initial(cfg), es, s) && Enabled(cfg, s, FlushExtract(result))
    ensures LastFlush(es).Some?
    ensures var now, i := LastFlush(es).value, Visits(es);
            i < |s.shards| &&
            var before, after := s.shards[i].windows, Apply(cfg, s, FlushExtract(result)).shards[i].windows;
            && (forall k :: k in before ==> (before[k] in result <==> k.start + cfg.window <= now))
            && (forall k :: k in before ==> (k in after <==> now < k.start + cfg.window))
            && (forall k :: k in after ==> k in before && after[k] == before[k])
            && (forall x :: x in result ==> x.Id() in before && before[x.Id()] == x)
  {
    hide Runs, WindowStart, Enumerates, Before, NotBefore, WellFormed, LastFlush, Visits;
    FlushPoint(cfg, es, s);
    TakenAndKept(cfg, result, s.shards[s.writer.next].windows, LastFlush(es).value);
  }

  /** Where the flush in progress stands, and what the shard it comes to holds. */
  lemma FlushPoint(cfg: Config, es: seq<Event>, s: State)
    requires cfg.Valid() && Runs(cfg, Initial(cfg), es, s) && s.writer.Flushing? && s.writer.next < |s.shards|
    ensures LastFlush(es).Some? && s.writer.mark == WindowStart(LastFlush(es).value, cfg.window)
    ensures s.writer.next == Visits(es) && WellFormed(s.shards[s.writer.next].windows, cfg.window)
  {
    hide Runs, Control, HandOff, Order, Balanced, CollectedOnce, SortedBlocks, AllSound, Submitted, LastFlush, Visits,
         WindowStart, ShardMarked, Settled, WellFormed, Reachable;
    AfterRun(cfg, es, s);
    RunMarked(cfg, es, s);
    RunShardsMarked(cfg, es, s);
    assert ShardContents(cfg, s.writer.next, s.shards[s.writer.next].windows);
  }

  lemma TakenAndKept(cfg: Config, result: seq<WindowStats>, windows: Windows, now: nat)
    requires cfg.Valid() && WellFormed(windows, cfg.window)
    requires Enumerates(result, Before(windows, WindowStart(now, cfg.window)))
    ensures var after := NotBefore(windows, WindowStart(now, cfg.window));
            && (forall k :: k in windows ==> (windows[k] in result <==> k.start + cfg.window <= now))
            && (forall k :: k in windows ==> (k in after <==> now < k.start + cfg.window))
            && (forall k :: k in after ==> k in windows && after[k] == windows[k])
            && (forall x :: x in result ==> x.Id() in windows && windows[x.Id()] == x)
  {
    hide WindowStart;
    var mark := WindowStart(now, cfg.window);
    forall k | k in windows
      ensures k.start < mark <==> k.start + cfg.window <= now
      ensures windows[k].Id() == k
    {
      assert windows[k].Sound(cfg.window);
      OverIffBefore(cfg, k.start, now);
    }
    assert forall x :: x in result ==> x.Id() in Before(windows, mark) && windows[x.Id()] == x;
    forall k | k in windows
      ensures windows[k] in result <==> k.start < mark
    {
      if k.start < mark {
        assert Before(windows, mark)[k] in result;
      }
    }
  }

  // ------------------------------------------------------------ the sink only grows

  lemma {:induction false} SinkTextConcat(f: Format, a: seq<Snapshot>, b: seq<Snapshot>)
    ensures SinkText(f, a + b) == SinkText(f, a) + SinkText(f, b)
  {
    hide BlockText;
    if a == [] {
      assert a + b == b;
    } else {
      assert (a + b)[0] == a[0] && (a + b)[1..] == a[1..] + b;
      SinkTextConcat(f, a[1..], b);
    }
  }

  /** A step writes nothing, or appends the blocks of the windows in hand. */
  lemma StepAppends(cfg: Config, s: State, e: Event)
    requires cfg.Valid() && Control(cfg, s) && Enabled(cfg, s, e)
    ensures Apply(cfg, s, e).sink == s.sink + if e.FlushWrite? || e.FinalWrite? then WriteSpec(Unwritten(s)) else []
  {
    hide BoundedQueues.Queue.Push, BoundedQueues.Queue.Pop, WindowStart, AddTrade, NotBefore, Enumerates, WriteSpec, Starts,
         Reaches, Flatten, ShardsControl;
  }

  /** What is written stays: the text of the sink at any point is the beginning of its text at any later one. */
  lemma {:induction false} OnlyAppends(cfg: Config, s: State, es: seq<Event>, s': State, f: Format)
    requires cfg.Valid() && Inv(cfg, s) && Runs(cfg, s, es, s')
    ensures s.sink <= s'.sink && SinkText(f, s.sink) <= SinkText(f, s'.sink)
    decreases |es|
  {
    hide Inv, Enabled, Apply, SinkText, Control;
    if es != [] {
      var m := Apply(cfg, s, es[0]);
      InvControl(cfg, s);
      StepAppends(cfg, s, es[0]);
      StepInv(cfg, s, es[0]);
      SinkTextConcat(f, s.sink, m.sink[|s.sink|..]);
      assert m.sink == s.sink + m.sink[|s.sink|..];
      OnlyAppends(cfg, m, es[1..], s', f);
    }
  }

  lemma InvControl(cfg: Config, s: State)
    requires cfg.Valid() && Inv(cfg, s)
    ensures Control(cfg, s)
  {
  }
}
