/**
 What the events of a run say by themselves.

 `Submitted` are the messages whose submission succeeded and `LastFlush` is the clock reading the
 latest flush began with. Both are read off the events alone; the state agrees with them.
 */
module PipelineHistory {
  import opened Options
  import opened Statistics
  import opened Snapshots
  import opened Pipeline
  import opened PipelineControl

  /** The messages of the successful submissions, in order. */
  ghost function Submitted(es: seq<Event>): seq<Message> {
    if es == [] then [] else (if es[0].Submit? then [es[0].msg] else []) + Submitted(es[1..])
  }

  lemma StepAccepted(cfg: Config, s: State, e: Event)
    requires cfg.Valid() && Enabled(cfg, s, e)
    ensures Apply(cfg, s, e).accepted == s.accepted + if e.Submit? then [e.msg] else []
  {
    hide BoundedQueues.Queue.Push, BoundedQueues.Queue.Pop, WindowStart, AddTrade, NotBefore, Enumerates, WriteSpec, Starts, Reaches, Flatten;
  }

  lemma {:induction false} RunAccepted(cfg: Config, s: State, es: seq<Event>, s': State)
    requires cfg.Valid() && Runs(cfg, s, es, s')
    ensures s'.accepted == s.accepted + Submitted(es)
    decreases |es|
  {
    hide Enabled, Apply;
    if es != [] {
      StepAccepted(cfg, s, es[0]);
      RunAccepted(cfg, Apply(cfg, s, es[0]), es[1..], s');
    }
  }

  /** The history field is exactly what was submitted. */
  lemma AcceptedIsSubmitted(cfg: Config, es: seq<Event>, s: State)
    requires cfg.Valid() && Runs(cfg, Initial(cfg), es, s)
    ensures s.accepted == Submitted(es)
  {
    hide Runs;
    RunAccepted(cfg, Initial(cfg), es, s);
  }

  // ------------------------------------------------------------ watermarks

  /** The clock reading of the latest flush. */
  ghost function LastFlush(es: seq<Event>): Option<nat> {
    if es == [] then None
    else if es[|es| - 1].FlushBegin? then Some(es[|es| - 1].now)
    else LastFlush(es[..|es| - 1])
  }

  /** Some flush began when the window was over. */
  ghost predicate Due(cfg: Config, es: seq<Event>, start: nat) {
    exists i :: 0 <= i < |es| && es[i].FlushBegin? && start + cfg.window <= es[i].now
  }

  /** The settled watermark is none, or the window of some flush's clock reading. */
  ghost predicate Settled(cfg: Config, es: seq<Event>, mark: nat)
    requires cfg.Valid()
  {
    mark == 0 || exists i :: 0 <= i < |es| && es[i].FlushBegin? && mark == WindowStart(es[i].now, cfg.window)
  }

  /** The watermarks in the state come from the clock readings. */
  ghost predicate Marked(cfg: Config, es: seq<Event>, s: State)
    requires cfg.Valid()
  {
    && Settled(cfg, es, s.settled)
    && (s.writer.Flushing? ==>
          && LastFlush(es).Some? && s.writer.mark == WindowStart(LastFlush(es).value, cfg.window)
          && Settled(cfg, es, s.writer.mark))
  }

  lemma StepWatermarks(cfg: Config, s: State, e: Event)
    requires cfg.Valid() && Enabled(cfg, s, e)
    ensures var s' := Apply(cfg, s, e);
            && (e.FlushBegin? ==> s'.writer.Flushing? && s'.writer.mark == WindowStart(e.now, cfg.window))
            && (!e.FlushBegin? && s'.writer.Flushing? ==> s.writer.Flushing? && s'.writer.mark == s.writer.mark)
            && (s'.settled == s.settled || (s.writer.Flushing? && s'.settled == s.writer.mark))
  {
    hide WindowStart, AddTrade, NotBefore, Enumerates, WriteSpec, Starts, Reaches, Flatten;
  }

  lemma SettledSnoc(cfg: Config, es: seq<Event>, e: Event, mark: nat)
    requires cfg.Valid()
    ensures Settled(cfg, es, mark) ==> Settled(cfg, es + [e], mark)
    ensures e.FlushBegin? && mark == WindowStart(e.now, cfg.window) ==> Settled(cfg, es + [e], mark)
  {
    hide WindowStart;
    var all := es + [e];
    assert all[|es|] == e;
    if i :| 0 <= i < |es| && es[i].FlushBegin? && mark == WindowStart(es[i].now, cfg.window) {
      assert all[i] == es[i];
    }
  }

  lemma {:induction false} LastStep(cfg: Config, s: State, es: seq<Event>, s': State) returns (m: State)
    requires cfg.Valid() && Runs(cfg, s, es, s') && es != []
    ensures Runs(cfg, s, es[..|es| - 1], m) && Enabled(cfg, m, es[|es| - 1]) && s' == Apply(cfg, m, es[|es| - 1])
    decreases |es|
  {
    hide Enabled, Apply;
    if |es| == 1 {
      m := s;
      assert es[..0] == [] && es[1..] == [];
    } else {
      m := LastStep(cfg, Apply(cfg, s, es[0]), es[1..], s');
      assert es[1..][..|es| - 2] == es[..|es| - 1][1..];
    }
  }

  lemma {:induction false} RunMarked(cfg: Config, es: seq<Event>, s: State)
    requires cfg.Valid() && Runs(cfg, Initial(cfg), es, s)
    ensures Marked(cfg, es, s)
    decreases |es|
  {
    hide Enabled, Apply, WindowStart, Settled;
    if es == [] {
      InitialSettled(cfg);
    } else {
      var init, e := es[..|es| - 1], es[|es| - 1];
      var m := LastStep(cfg, Initial(cfg), es, s);
      RunMarked(cfg, init, m);
      StepWatermarks(cfg, m, e);
      assert es == init + [e];
      SettledSnoc(cfg, init, e, s.settled);
      if s.writer.Flushing? {
        SettledSnoc(cfg, init, e, s.writer.mark);
      }
    }
  }

  lemma InitialSettled(cfg: Config)
    requires cfg.Valid()
    ensures Settled(cfg, [], 0)
  {
  }

  /** A window that starts before a settled watermark was over when that flush began. */
  lemma BeforeMarkIsDue(cfg: Config, es: seq<Event>, mark: nat, start: nat)
    requires cfg.Valid() && Settled(cfg, es, mark) && start < mark && start % cfg.window == 0
    ensures Due(cfg, es, start)
  {
    var i :| 0 <= i < |es| && es[i].FlushBegin? && mark == WindowStart(es[i].now, cfg.window);
    ApartByWindow(start, mark, cfg.window);
  }

  lemma ApartByWindow(a: nat, b: nat, window: nat)
    requires window > 0 && a % window == 0 && b % window == 0 && a < b
    ensures a + window <= b
  {
    var p, q := a / window, b / window;
    assert a == p * window && b == q * window;
    assert (q - p) * window == q * window - p * window > 0;
    assert q > p;
    ProductAtLeast(q - p, window);
  }

  // ------------------------------------------------------------ late trades

  /** The shards the latest flush has extracted so far. */
  ghost function Visits(es: seq<Event>): nat {
    if es == [] || es[|es| - 1].FlushBegin? then 0
    else (if es[|es| - 1].FlushExtract? then 1 else 0) + Visits(es[..|es| - 1])
  }

  /** At this point of the run a flush begun with this clock reading extracted the shard. */
  ghost predicate Extracted(es: seq<Event>, j: nat, i: nat, now: nat) {
    j < |es| && es[j].FlushExtract? && LastFlush(es[..j]) == Some(now) && Visits(es[..j]) == i
  }

  /** The highest watermark a shard was extracted with: a bound that is attained. */
  ghost predicate ShardMarked(cfg: Config, es: seq<Event>, i: nat, mark: nat)
    requires cfg.Valid()
  {
    && (forall j, now :: Extracted(es, j, i, now) ==> WindowStart(now, cfg.window) <= mark)
    && (mark == 0 || exists j, now :: Extracted(es, j, i, now) && mark == WindowStart(now, cfg.window))
  }

  ghost predicate ShardsMarked(cfg: Config, es: seq<Event>, s: State)
    requires cfg.Valid()
  {
    && (s.writer.Flushing? ==> s.writer.next == Visits(es))
    && forall i :: 0 <= i < |s.shards| ==> ShardMarked(cfg, es, i, s.shards[i].mark)
  }

  lemma StepVisits(cfg: Config, s: State, e: Event)
    requires cfg.Valid() && Enabled(cfg, s, e)
    ensures var s' := Apply(cfg, s, e);
            && (e.FlushBegin? ==> s'.writer.Flushing? && s'.writer.next == 0)
            && (e.FlushExtract? ==> s.writer.Flushing? && s'.writer.Flushing? && s'.writer.next == s.writer.next + 1)
            && (s'.writer.Flushing? && !e.FlushBegin? && !e.FlushExtract? ==> s'.writer == s.writer)
  {
    hide WindowStart, AddTrade, NotBefore, Enumerates, WriteSpec, Starts, Reaches, Flatten;
  }

  /** The extraction under way raises a shard's watermark; nothing else touches it. */
  lemma StepMark(cfg: Config, s: State, e: Event, i: nat)
    requires cfg.Valid() && Enabled(cfg, s, e) && i < |s.shards|
    ensures var s' := Apply(cfg, s, e);
            && |s'.shards| == |s.shards|
            && s'.shards[i].mark == if e.FlushExtract? && s.writer.next == i then MaxNat(s.shards[i].mark, s.writer.mark)
                                    else s.shards[i].mark
  {
    hide Apply;
    if IsStageStep(e) {
      StageMark(cfg, s, e, i);
    } else {
      OtherMark(cfg, s, e, i);
    }
  }

  lemma StageMark(cfg: Config, s: State, e: Event, i: nat)
    requires cfg.Valid() && Enabled(cfg, s, e) && IsStageStep(e) && i < |s.shards|
    ensures var s' := Apply(cfg, s, e); |s'.shards| == |s.shards| && s'.shards[i].mark == s.shards[i].mark
  {
    hide BoundedQueues.Queue.Push, BoundedQueues.Queue.Pop, WindowStart, AddTrade, Starts, Reaches, Flatten;
  }

  lemma OtherMark(cfg: Config, s: State, e: Event, i: nat)
    requires cfg.Valid() && Enabled(cfg, s, e) && !IsStageStep(e) && i < |s.shards|
    ensures var s' := Apply(cfg, s, e);
            && |s'.shards| == |s.shards|
            && s'.shards[i].mark == if e.FlushExtract? && s.writer.next == i then MaxNat(s.shards[i].mark, s.writer.mark)
                                    else s.shards[i].mark
  {
    hide BoundedQueues.Queue.Push, WindowStart, NotBefore, Enumerates, WriteSpec, Starts, Reaches;
  }

  lemma ExtractedSnoc(es: seq<Event>, e: Event, j: nat, i: nat, now: nat)
    ensures Extracted(es + [e], j, i, now) <==>
              Extracted(es, j, i, now) || (j == |es| && e.FlushExtract? && LastFlush(es) == Some(now) && Visits(es) == i)
  {
    if j < |es| {
      assert (es + [e])[..j] == es[..j];
    } else if j == |es| {
      assert (es + [e])[..j] == es;
    }
  }

  /** A step that does not extract the shard, or one that does, and its watermark. */
  lemma MarkedSnoc(cfg: Config, es: seq<Event>, e: Event, i: nat, mark: nat, mark': nat)
    requires cfg.Valid() && ShardMarked(cfg, es, i, mark)
    requires if e.FlushExtract? && Visits(es) == i
             then LastFlush(es).Some? && mark' == MaxNat(mark, WindowStart(LastFlush(es).value, cfg.window))
             else mark' == mark
    ensures ShardMarked(cfg, es + [e], i, mark')
  {
    hide WindowStart, Extracted;
    var all := es + [e];
    forall j, now | Extracted(all, j, i, now)
      ensures WindowStart(now, cfg.window) <= mark'
    {
      ExtractedSnoc(es, e, j, i, now);
    }
    if mark' != 0 {
      if mark' == mark {
        var j, now :| Extracted(es, j, i, now) && mark == WindowStart(now, cfg.window);
        ExtractedSnoc(es, e, j, i, now);
      } else {
        ExtractedSnoc(es, e, |es|, i, LastFlush(es).value);
      }
    }
  }

  lemma InitialMarked(cfg: Config)
    requires cfg.Valid()
    ensures ShardsMarked(cfg, [], Initial(cfg))
  {
  }

  lemma {:induction false} RunShardsMarked(cfg: Config, es: seq<Event>, s: State)
    requires cfg.Valid() && Runs(cfg, Initial(cfg), es, s)
    ensures ShardsMarked(cfg, es, s)
    decreases |es|
  {
    hide Enabled, Apply, WindowStart, ShardMarked, Settled;
    if es == [] {
      InitialMarked(cfg);
    } else {
      var init, e := es[..|es| - 1], es[|es| - 1];
      var m := LastStep(cfg, Initial(cfg), es, s);
      RunShardsMarked(cfg, init, m);
      RunMarked(cfg, init, m);
      StepVisits(cfg, m, e);
      assert es == init + [e];
      StepLength(cfg, m, e);
      forall i | 0 <= i < |s.shards|
        ensures ShardMarked(cfg, es, i, s.shards[i].mark)
      {
        StepMark(cfg, m, e, i);
        MarkedSnoc(cfg, init, e, i, m.shards[i].mark, s.shards[i].mark);
      }
    }
  }

  lemma StepLength(cfg: Config, s: State, e: Event)
    requires cfg.Valid() && Enabled(cfg, s, e)
    ensures |Apply(cfg, s, e).shards| == |s.shards|
  {
    hide WindowStart, AddTrade, NotBefore, Enumerates, WriteSpec, Starts, Reaches, Flatten;
  }

  /** A window before the watermark of a clock reading was over at that time. */
  lemma OverIffBefore(cfg: Config, start: nat, now: nat)
    requires cfg.Valid() && start % cfg.window == 0
    ensures start < WindowStart(now, cfg.window) <==> start + cfg.window <= now
  {
    var mark := WindowStart(now, cfg.window);
    if start < mark {
      ApartByWindow(start, mark, cfg.window);
    }
    if start >= mark {
      assert start + cfg.window >= mark + cfg.window > now;
    }
  }

  /**
   What late means: in every run a step records a late trade exactly if it adds a trade to a shard
   that an earlier flush, begun when the trade's window was over, has already extracted.
   */
  lemma LateMeaning(cfg: Config, es: seq<Event>, s: State, e: Event)
    requires cfg.Valid() && Runs(cfg, Initial(cfg), es, s) && Enabled(cfg, s, e) && !s.late
    ensures Apply(cfg, s, e).late <==>
              && e.AggregatorAdd?
              && var start := WindowStart(s.shards[e.i].hand.value.time, cfg.window);
              exists j, now :: Extracted(es, j, e.i, now) && start + cfg.window <= now
  {
    RunShardsMarked(cfg, es, s);
    StepLate(cfg, s, e);
    hide Apply, Runs, WindowStart, Extracted;
    if e.AggregatorAdd? {
      var sh := s.shards[e.i];
      var start := WindowStart(sh.hand.value.time, cfg.window);
      assert ShardMarked(cfg, es, e.i, sh.mark);
      forall now
        ensures start < WindowStart(now, cfg.window) <==> start + cfg.window <= now
      {
        OverIffBefore(cfg, start, now);
      }
    }
  }

  lemma StepLate(cfg: Config, s: State, e: Event)
    requires cfg.Valid() && Enabled(cfg, s, e) && !s.late
    ensures Apply(cfg, s, e).late <==>
              e.AggregatorAdd? && WindowStart(s.shards[e.i].hand.value.time, cfg.window) < s.shards[e.i].mark
  {
    hide WindowStart, AddTrade, NotBefore, Enumerates, WriteSpec, Starts, Reaches, Flatten;
  }
}
