/**
 What a late trade does to the output.

 The source gives a late trade a fresh, partial window. So canonical output is not a property of
 all runs: for every single-shard configuration and every valid message there is a run that
 writes the message's window twice, and another in which the late trade leaves no trace.
 `PipelineTheorems.CanonicalIffNotOvertaken` says exactly when the output is canonical.
 */
module LateTrades {
  import opened Options
  import opened Statistics
  import opened Ordering
  import opened Snapshots
  import opened Pipeline
  import opened PipelineHistory
  import opened PipelineTheorems

  lemma {:induction false} RunsSnoc(cfg: Config, s: State, es: seq<Event>, s': State, e: Event)
    requires cfg.Valid() && Runs(cfg, s, es, s') && Enabled(cfg, s', e)
    ensures Runs(cfg, s, es + [e], Apply(cfg, s', e))
    decreases |es|
  {
    hide Enabled, Apply;
    if es == [] {
      assert es + [e] == [e];
      assert [e][1..] == [];
    } else {
      assert (es + [e])[0] == es[0] && (es + [e])[1..] == es[1..] + [e];
      RunsSnoc(cfg, Apply(cfg, s, es[0]), es[1..], s', e);
    }
  }

  /** One more step of a run. */
  lemma Then(cfg: Config, s: State, e: Event) returns (s': State)
    requires cfg.Valid() && Reachable(cfg, s) && Enabled(cfg, s, e)
    ensures Reachable(cfg, s') && s' == Apply(cfg, s, e)
  {
    hide Enabled, Apply, Runs;
    s' := Apply(cfg, s, e);
    var es :| Runs(cfg, Initial(cfg), es, s);
    RunsSnoc(cfg, Initial(cfg), es, s, e);
  }

  /** All stages idle, one shard, nothing requested. */
  ghost predicate AtRest(s: State) {
    && s.raw.items == [] && !s.raw.closed && s.parser.Popping? && s.writer.Waiting? && s.stopper.Running?
    && |s.shards| == 1
    && var sh := s.shards[0]; sh.queue.items == [] && !sh.queue.closed && sh.hand.None? && !sh.exited
  }

  /** One message on its way from submission to the aggregator. */
  lemma Process(cfg: Config, s: State, m: Message, t: Trade) returns (s': State)
    requires cfg.Valid() && cfg.threads <= 1 && Reachable(cfg, s) && AtRest(s) && cfg.parse(m) == Some(t)
    ensures Reachable(cfg, s') && AtRest(s')
    ensures s'.accepted == s.accepted + [m] && s'.sink == s.sink
    ensures s'.shards[0].windows == AddTrade(s.shards[0].windows, cfg.window, t) && s'.shards[0].mark == s.shards[0].mark
    ensures s'.late <==> s.late || WindowStart(t.time, cfg.window) < s.shards[0].mark
  {
    hide AddTrade, WindowStart, Reachable, Enumerates, WriteSpec, NotBefore;
    var a := Then(cfg, s, Submit(m));
    assert a.raw.items == [m];
    var b := Then(cfg, a, ParserPop);
    assert cfg.ShardOf(t.symbol) == 0;
    assert b.parser == Holding(t) && b.raw.items == [] && b.shards == s.shards;
    var c := Then(cfg, b, ParserPush);
    assert c.shards[0].queue.items == [t];
    var d := Then(cfg, c, AggregatorPop(0));
    assert d.shards[0].hand == Some(t) && d.shards[0].queue.items == [];
    s' := Then(cfg, d, AggregatorAdd(0));
  }

  /** A complete flush of the one shard. */
  lemma Flush(cfg: Config, s: State, now: nat, result: seq<WindowStats>) returns (s': State)
    requires cfg.Valid() && Reachable(cfg, s) && AtRest(s)
    requires Enumerates(result, Before(s.shards[0].windows, WindowStart(now, cfg.window)))
    ensures Reachable(cfg, s') && AtRest(s')
    ensures s'.accepted == s.accepted && s'.sink == s.sink + WriteSpec(result) && s'.late == s.late
    ensures s'.shards[0].windows == NotBefore(s.shards[0].windows, WindowStart(now, cfg.window))
    ensures s'.shards[0].mark == MaxNat(s.shards[0].mark, WindowStart(now, cfg.window))
  {
    hide AddTrade, WindowStart, Reachable, Enumerates, WriteSpec, NotBefore, Before, Starts, Reaches, Flatten;
    var a := Then(cfg, s, FlushBegin(now));
    var b := Then(cfg, a, FlushExtract(result));
    assert [] + result == result;
    s' := Then(cfg, b, FlushWrite);
  }

  /** `stop()` on an idle pipeline, up to the shutdown of the raw queue. */
  lemma StopWriter(cfg: Config, s: State) returns (s': State)
    requires cfg.Valid() && Reachable(cfg, s) && AtRest(s)
    ensures Reachable(cfg, s') && s' == s.(writer := WriterExited, stopper := JoinParser, raw := s.raw.Shutdown())
  {
    hide AddTrade, WindowStart, Reachable, Enumerates, WriteSpec, NotBefore, Before, Starts, Reaches, Flatten;
    var a := Then(cfg, s, StopRequest);
    var b := Then(cfg, a, WriterExit);
    s' := Then(cfg, b, StopCloseRaw);
  }

  /** Up to the shutdown of the shard. */
  lemma StopParser(cfg: Config, s: State) returns (s': State)
    requires cfg.Valid() && Reachable(cfg, s) && AtRest(s)
    ensures Reachable(cfg, s') && s' == s.(writer := WriterExited, raw := s.raw.Shutdown(), parser := ParserExited,
                                           stopper := ClosingShards(0))
  {
    hide AddTrade, WindowStart, Reachable, Enumerates, WriteSpec, NotBefore, Before, Starts, Reaches, Flatten;
    var a := StopWriter(cfg, s);
    var b := Then(cfg, a, ParserExit);
    s' := Then(cfg, b, StopJoinParser);
  }

  lemma StopShard(cfg: Config, s: State) returns (s': State)
    requires cfg.Valid() && Reachable(cfg, s) && AtRest(s)
    ensures Reachable(cfg, s') && |s'.shards| == 1 && s'.shards[0].windows == s.shards[0].windows
    ensures s'.stopper == FinalFlush(0, []) && s'.accepted == s.accepted && s'.sink == s.sink && s'.late == s.late
  {
    hide AddTrade, WindowStart, Reachable, Enumerates, WriteSpec, NotBefore, Before, Starts, Reaches, Flatten;
    var a := StopParser(cfg, s);
    var b := Then(cfg, a, StopCloseShard);
    assert b.stopper == JoiningShards(0) && b.shards[0] == s.shards[0].(queue := s.shards[0].queue.Shutdown());
    var c := Then(cfg, b, AggregatorExit(0));
    s' := Then(cfg, c, StopJoinShard);
  }

  /** `stop()` on an idle pipeline. */
  lemma Stop(cfg: Config, s: State, result: seq<WindowStats>) returns (s': State)
    requires cfg.Valid() && Reachable(cfg, s) && AtRest(s) && Enumerates(result, s.shards[0].windows)
    ensures Reachable(cfg, s') && s'.stopper.Stopped?
    ensures s'.accepted == s.accepted && s'.sink == s.sink + WriteSpec(result) && s'.late == s.late
  {
    hide AddTrade, WindowStart, Reachable, Enumerates, WriteSpec, NotBefore, Before, Starts, Reaches, Flatten;
    var a := StopShard(cfg, s);
    var b := Then(cfg, a, FinalExtract(result));
    assert [] + result == result;
    s' := Then(cfg, b, FinalWrite);
  }

  lemma NextWindow(start: nat, window: nat)
    requires window > 0 && start % window == 0
    ensures WindowStart(start + window, window) == start + window
  {
    MultipleOf(start / window + 1, window);
    assert (start / window + 1) * window == start + window;
  }

  lemma InitialAtRest(cfg: Config)
    requires cfg.Valid() && cfg.threads <= 1
    ensures Reachable(cfg, Initial(cfg)) && AtRest(Initial(cfg))
  {
    assert Runs(cfg, Initial(cfg), [], Initial(cfg));
  }

  lemma WriteOne(x: WindowStats)
    ensures WriteSpec([x]) == [Snapshot(x.start, [x])]
  {
    assert [x][1..] == [];
    assert SortLines([x]) == InsertLine(x, SortLines([])) == [x] + [] == [x];
    BlocksOfOne(x.start, [x]);
  }

  /** A run to a reachable state. */
  lemma RunTo(cfg: Config, s: State) returns (es: seq<Event>)
    requires cfg.Valid() && Reachable(cfg, s)
    ensures Runs(cfg, Initial(cfg), es, s) && Submitted(es) == s.accepted
  {
    hide Runs;
    es :| Runs(cfg, Initial(cfg), es, s);
    AcceptedIsSubmitted(cfg, es, s);
  }

  /** The bucket of one trade, and the flush that takes it. */
  lemma OneTrade(t: Trade, window: nat)
    requires window > 0
    ensures var x, only := Single(t, window), map[TradeKey(t, window) := Single(t, window)];
            && AddTrade(map[], window, t) == only && Enumerates([x], only)
            && WindowStart(x.start + window, window) == x.start + window && WindowStart(t.time, window) == x.start
            && Before(only, x.start + window) == only && NotBefore(only, x.start + window) == map[]
            && WriteSpec([x]) == [Snapshot(x.start, [x])]
  {
    NextWindow(WindowStart(t.time, window), window);
    WriteOne(Single(t, window));
    hide WriteSpec, WindowStart;
  }

  /**
   For every single-shard configuration and every valid message: submit it, let it be flushed
   with a later watermark, submit it again, stop. The window is written twice, so the output is
   not the one-shot aggregate.
   */
  lemma LateTradeSplitsWindow(cfg: Config, m: Message, t: Trade) returns (es: seq<Event>, s: State)
    requires cfg.Valid() && cfg.threads <= 1 && cfg.parse(m) == Some(t)
    ensures Runs(cfg, Initial(cfg), es, s) && Submitted(es) == [m, m] && s.stopper.Stopped? && s.late
    ensures var x := Single(t, cfg.window);
            s.sink == [Snapshot(x.start, [x]), Snapshot(x.start, [x])]
    ensures s.sink != Canonical(cfg, Submitted(es)) && s.overtaken
  {
    hide AddTrade, WindowStart, Reachable, Enumerates, WriteSpec, NotBefore, Before, Canonical, AtRest, Single, Runs, Submitted;
    var x := Single(t, cfg.window);
    InitialAtRest(cfg);
    OneTrade(t, cfg.window);
    var a := Process(cfg, Initial(cfg), m, t);
    var b := Flush(cfg, a, x.start + cfg.window, [x]);
    var c := Process(cfg, b, m, t);
    s := Stop(cfg, c, [x]);
    assert s.sink == [Snapshot(x.start, [x])] + [Snapshot(x.start, [x])];
    assert !Ascending(s.sink) by {
      assert s.sink[0].start == s.sink[1].start;
    }
    es := RunTo(cfg, s);
    CanonicalIffAscending(cfg, es, s);
    CanonicalIffNotOvertaken(cfg, es, s);
  }

  /**
   For the same configurations and messages: flush while nothing is there to be written, then
   submit the message with a window before that watermark, stop. The trade is late, but no flush
   has overtaken it, and the output is canonical.
   */
  lemma LateTradeUnnoticed(cfg: Config, m: Message, t: Trade) returns (es: seq<Event>, s: State)
    requires cfg.Valid() && cfg.threads <= 1 && cfg.parse(m) == Some(t)
    ensures Runs(cfg, Initial(cfg), es, s) && Submitted(es) == [m] && s.stopper.Stopped? && s.late
    ensures !s.overtaken && s.sink == Canonical(cfg, Submitted(es))
  {
    hide AddTrade, WindowStart, Reachable, Enumerates, WriteSpec, NotBefore, Before, Canonical, AtRest, Single, Runs, Submitted;
    var x := Single(t, cfg.window);
    InitialAtRest(cfg);
    OneTrade(t, cfg.window);
    NothingToFlush(x.start + cfg.window);
    var a := Flush(cfg, Initial(cfg), x.start + cfg.window, []);
    var b := Process(cfg, a, m, t);
    s := Stop(cfg, b, [x]);
    assert s.sink == [] + [] + [Snapshot(x.start, [x])];
    assert Ascending(s.sink);
    es := RunTo(cfg, s);
    CanonicalIffAscending(cfg, es, s);
    CanonicalIffNotOvertaken(cfg, es, s);
  }

  lemma NothingToFlush(mark: nat)
    ensures Enumerates([], Before(map[], mark)) && NotBefore(map[], mark) == map[] && WriteSpec([]) == []
  {
  }
}
