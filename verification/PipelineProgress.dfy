/**
 Bounded memory and progress of `stop()`.

 Once the raw queue is shut down nothing new enters, every step of a stage strictly decreases the
 work left, and as long as `stop()` has not returned some step is possible, even with full shard
 queues. So every join is reached, with the queues before it empty.
 */
module PipelineProgress {
  import opened Statistics
  import opened Snapshots
  import opened Pipeline
  import opened PipelineControl
  import opened PipelineContents
  import opened PipelineTheorems

  // ------------------------------------------------------------ sums over shards

  function Total(f: Shard -> nat, shards: seq<Shard>): nat {
    if shards == [] then 0 else Total(f, shards[..|shards| - 1]) + f(shards[|shards| - 1])
  }

  lemma {:induction false} TotalUpdate(f: Shard -> nat, shards: seq<Shard>, i: nat, sh: Shard)
    requires i < |shards|
    ensures Total(f, shards[i := sh]) == Total(f, shards) + f(sh) - f(shards[i])
  {
    var n := |shards| - 1;
    if i == n {
      assert shards[i := sh][..n] == shards[..n];
    } else {
      assert shards[i := sh][..n] == shards[..n][i := sh];
      TotalUpdate(f, shards[..n], i, sh);
    }
  }

  lemma {:induction false} TotalBound(f: Shard -> nat, shards: seq<Shard>, bound: nat)
    requires forall i :: 0 <= i < |shards| ==> f(shards[i]) <= bound
    ensures Total(f, shards) <= |shards| * bound
  {
    if shards != [] {
      TotalBound(f, shards[..|shards| - 1], bound);
      assert |shards| * bound == (|shards| - 1) * bound + bound;
    }
  }

  lemma {:induction false} TotalSame(f: Shard -> nat, a: seq<Shard>, b: seq<Shard>)
    requires |a| == |b| && forall i :: 0 <= i < |a| ==> f(a[i]) == f(b[i])
    ensures Total(f, a) == Total(f, b)
  {
    if a != [] {
      TotalSame(f, a[..|a| - 1], b[..|b| - 1]);
    }
  }

  // ------------------------------------------------------------ bounded memory

  function Occupied(sh: Shard): nat {
    |sh.queue.items| + if sh.hand.Some? then 1 else 0
  }

  /** Messages and trades queued or in some thread's hand. */
  function InFlight(s: State): nat {
    |s.raw.items| + (if s.parser.Holding? then 1 else 0) + Total(Occupied, s.shards)
  }

  lemma ShardCapacitySum(cfg: Config)
    ensures cfg.ShardCount() * cfg.ShardCapacity() <= MaxNat(cfg.capacity, cfg.ShardCount())
  {
  }

  lemma OccupiedBound(cfg: Config, s: State)
    requires Control(cfg, s)
    ensures Total(Occupied, s.shards) <= cfg.ShardCount() * (cfg.ShardCapacity() + 1)
  {
    forall i | 0 <= i < |s.shards|
      ensures Occupied(s.shards[i]) <= cfg.ShardCapacity() + 1
    {
      assert ShardControl(cfg, s.stopper, i, s.shards[i]);
    }
    TotalBound(Occupied, s.shards, cfg.ShardCapacity() + 1);
  }

  lemma ControlBound(cfg: Config, s: State)
    requires Control(cfg, s)
    ensures InFlight(s) <= cfg.capacity + MaxNat(cfg.capacity, cfg.ShardCount()) + 1 + cfg.ShardCount()
  {
    OccupiedBound(cfg, s);
    ShardCapacitySum(cfg);
    hide ShardsControl, Total, MaxNat;
    var n, c := cfg.ShardCount(), cfg.ShardCapacity();
    assert n * (c + 1) == n * c + n;
  }

  /** In every reachable state: at most cap + max(cap, n) + 1 + n items between submission and aggregator. */
  lemma MemoryBound(cfg: Config, s: State)
    requires cfg.Valid() && Reachable(cfg, s)
    ensures InFlight(s) <= cfg.capacity + MaxNat(cfg.capacity, cfg.ShardCount()) + 1 + cfg.ShardCount()
  {
    hide Control, InFlight, Reachable, HandOff, Contents;
    ReachableInv(cfg, s);
    ControlBound(cfg, s);
  }

  // ------------------------------------------------------------ the work of the stages

  function Load(sh: Shard): nat {
    2 * |sh.queue.items| + (if sh.hand.Some? then 1 else 0) + (if sh.exited then 0 else 1)
  }

  function ParserLoad(p: Parser): nat {
    match p case Popping => 1 case Holding(_) => 4 case ParserExited => 0
  }

  /** Steps the parser and the aggregation threads can still take without new messages, at most. */
  function WorkLeft(s: State): nat {
    4 * |s.raw.items| + ParserLoad(s.parser) + Total(Load, s.shards)
  }

  lemma ParserStepDecreases(cfg: Config, s: State, e: Event)
    requires cfg.Valid() && Enabled(cfg, s, e) && (e.ParserPop? || e.ParserPush? || e.ParserExit?)
    ensures WorkLeft(Apply(cfg, s, e)) < WorkLeft(s)
  {
    hide Total;
    if e.ParserPush? {
      var i := cfg.ShardOf(s.parser.trade.symbol);
      if !s.shards[i].queue.closed {
        TotalUpdate(Load, s.shards, i, Apply(cfg, s, e).shards[i]);
      }
    }
  }

  lemma AggregatorStepDecreases(cfg: Config, s: State, e: Event)
    requires cfg.Valid() && Enabled(cfg, s, e) && (e.AggregatorPop? || e.AggregatorAdd? || e.AggregatorExit?)
    ensures WorkLeft(Apply(cfg, s, e)) < WorkLeft(s)
  {
    hide Total, WindowStart, AddTrade, Starts, Reaches, Flatten;
    TotalUpdate(Load, s.shards, e.i, Apply(cfg, s, e).shards[e.i]);
  }

  /** Every step of a stage strictly decreases the work left. */
  lemma StageStepDecreases(cfg: Config, s: State, e: Event)
    requires cfg.Valid() && Enabled(cfg, s, e) && IsStageStep(e)
    ensures WorkLeft(Apply(cfg, s, e)) < WorkLeft(s)
  {
    hide Apply, WorkLeft;
    if e.ParserPop? || e.ParserPush? || e.ParserExit? {
      ParserStepDecreases(cfg, s, e);
    } else {
      AggregatorStepDecreases(cfg, s, e);
    }
  }

  /** No step of the writer or of `stop()` adds work for the stages. */
  lemma OtherStepsKeepWork(cfg: Config, s: State, e: Event)
    requires cfg.Valid() && Enabled(cfg, s, e) && !IsStageStep(e) && !e.Submit?
    ensures WorkLeft(Apply(cfg, s, e)) == WorkLeft(s)
  {
    hide Total, WindowStart, NotBefore, Enumerates, WriteSpec;
    var s' := Apply(cfg, s, e);
    if e.FlushExtract? {
      TotalUpdate(Load, s.shards, s.writer.next, s'.shards[s.writer.next]);
    } else if e.FinalExtract? || e.StopCloseShard? {
      TotalUpdate(Load, s.shards, s.stopper.next, s'.shards[s.stopper.next]);
    }
  }

  /** Full shard queues never block the parser for good: the shard's own thread can move. */
  lemma ParserCanFinish(cfg: Config, s: State) returns (e: Event)
    requires cfg.Valid() && Control(cfg, s) && !s.parser.ParserExited?
    requires s.raw.closed || s.raw.items != [] || s.parser.Holding?
    ensures IsStageStep(e) && Enabled(cfg, s, e)
  {
    if s.parser.Popping? {
      e := if s.raw.items == [] then ParserExit else ParserPop;
    } else {
      var i := cfg.ShardOf(s.parser.trade.symbol);
      var sh := s.shards[i];
      assert ShardControl(cfg, s.stopper, i, sh);
      e := if sh.queue.closed || |sh.queue.items| < cfg.ShardCapacity() then ParserPush
           else if sh.hand.Some? then AggregatorAdd(i) else AggregatorPop(i);
    }
  }

  lemma ShardCanFinish(cfg: Config, s: State, i: nat) returns (e: Event)
    requires cfg.Valid() && Control(cfg, s) && i < |s.shards| && !s.shards[i].exited
    requires s.shards[i].queue.closed || s.shards[i].queue.items != [] || s.shards[i].hand.Some?
    ensures IsStageStep(e) && Enabled(cfg, s, e)
  {
    var sh := s.shards[i];
    e := if sh.hand.Some? then AggregatorAdd(i) else if sh.queue.items != [] then AggregatorPop(i) else AggregatorExit(i);
  }

  // ------------------------------------------------------------ back-pressure

  /** Nothing is queued or in hand between submission and aggregators. */
  ghost predicate Idle(s: State) {
    && s.raw.items == [] && !s.parser.Holding?
    && forall i :: 0 <= i < |s.shards| ==> s.shards[i].queue.items == [] && s.shards[i].hand.None?
  }

  lemma BusyCanMove(cfg: Config, s: State) returns (e: Event)
    requires cfg.Valid() && Control(cfg, s) && !Idle(s)
    ensures IsStageStep(e) && Enabled(cfg, s, e)
  {
    if s.raw.items != [] || s.parser.Holding? {
      e := ParserCanFinish(cfg, s);
    } else {
      var i :| 0 <= i < |s.shards| && (s.shards[i].queue.items != [] || s.shards[i].hand.Some?);
      assert ShardControl(cfg, s.stopper, i, s.shards[i]);
      e := ShardCanFinish(cfg, s, i);
    }
  }

  ghost predicate OnlyStages(es: seq<Event>) {
    forall i :: 0 <= i < |es| ==> IsStageStep(es[i])
  }

  /**
   Full queues resolve: from any state, running or stopping, the parser and the aggregation
   threads by themselves take at most `WorkLeft` steps, and where they cannot go on nothing is
   queued any more, so no submission waits.
   */
  lemma {:induction false} BackPressureResolves(cfg: Config, s: State, es: seq<Event>, s': State)
    requires cfg.Valid() && Inv(cfg, s) && Runs(cfg, s, es, s') && OnlyStages(es)
    ensures |es| + WorkLeft(s') <= WorkLeft(s)
    ensures (forall e :: IsStageStep(e) ==> !Enabled(cfg, s', e)) ==>
              Idle(s') && forall m :: Enabled(cfg, s', Submit(m)) || Enabled(cfg, s', SubmitRefused(m))
    decreases |es|
  {
    hide Inv, Enabled, Apply, WorkLeft, Control, IsStageStep;
    InvControl(cfg, s);
    if es == [] {
      if !Idle(s) {
        var e := BusyCanMove(cfg, s);
      } else {
        EmptyTakesMore(cfg, s);
      }
    } else {
      assert IsStageStep(es[0]);
      StageStepDecreases(cfg, s, es[0]);
      StepInv(cfg, s, es[0]);
      BackPressureResolves(cfg, Apply(cfg, s, es[0]), es[1..], s');
    }
  }

  lemma EmptyTakesMore(cfg: Config, s: State)
    requires cfg.Valid() && s.raw.items == []
    ensures forall m :: Enabled(cfg, s, Submit(m)) || Enabled(cfg, s, SubmitRefused(m))
  {
  }

  // ------------------------------------------------------------ stop() as a whole

  ghost predicate IsSubmission(e: Event) {
    e.Submit? || e.SubmitRefused?
  }

  /** Steps the writer can still take once stop is requested. */
  function WriterSteps(s: State): nat {
    match s.writer
    case Waiting => 1
    case Flushing(_, next, _) => if next <= |s.shards| then |s.shards| - next + 2 else 2
    case WriterExited => 0
  }

  function Remaining(n: nat, next: nat): nat {
    if next <= n then n - next else 0
  }

  /** Steps `stop()` itself can still take. */
  function StopSteps(s: State): nat {
    var n := |s.shards|;
    match s.stopper
    case Running => 3 * n + 7
    case JoinWriter => 3 * n + 6
    case JoinParser => 3 * n + 5
    case ClosingShards(next) => Remaining(n, next) + 2 * n + 4
    case JoiningShards(next) => Remaining(n, next) + n + 2
    case FinalFlush(next, _) => Remaining(n, next) + 1
    case Stopped => 0
  }

  function StepsLeft(s: State): nat {
    WorkLeft(s) + WriterSteps(s) + StopSteps(s)
  }

  lemma StageControlSteps(cfg: Config, s: State, e: Event)
    requires cfg.Valid() && Enabled(cfg, s, e) && IsStageStep(e)
    ensures var s' := Apply(cfg, s, e); WriterSteps(s') == WriterSteps(s) && StopSteps(s') == StopSteps(s)
  {
    StageLeavesControl(cfg, s, e);
    hide Apply, Enabled;
  }

  lemma StageLeavesControl(cfg: Config, s: State, e: Event)
    requires cfg.Valid() && Enabled(cfg, s, e) && IsStageStep(e)
    ensures var s' := Apply(cfg, s, e); s'.writer == s.writer && s'.stopper == s.stopper && |s'.shards| == |s.shards|
  {
    hide WindowStart, AddTrade, Starts, Reaches, Flatten, BoundedQueues.Queue.Push, BoundedQueues.Queue.Pop;
  }

  lemma StopControlSteps(cfg: Config, s: State, e: Event)
    requires cfg.Valid() && ThreadControl(cfg, s) && Enabled(cfg, s, e) && IsStopStep(e)
    ensures var s' := Apply(cfg, s, e); WriterSteps(s') == WriterSteps(s) && StopSteps(s') < StopSteps(s)
  {
    hide Enumerates, WriteSpec;
  }

  lemma ControlSteps(cfg: Config, s: State, e: Event)
    requires cfg.Valid() && ThreadControl(cfg, s) && Enabled(cfg, s, e) && !s.stopper.Running? && !IsSubmission(e)
    ensures var s' := Apply(cfg, s, e);
            if IsStageStep(e) then WriterSteps(s') + StopSteps(s') == WriterSteps(s) + StopSteps(s)
            else WriterSteps(s') + StopSteps(s') < WriterSteps(s) + StopSteps(s)
  {
    hide Apply, WriterSteps, StopSteps, ThreadControl;
    if IsStageStep(e) {
      StageControlSteps(cfg, s, e);
    } else if IsStopStep(e) {
      StopControlSteps(cfg, s, e);
    } else {
      WriterControlSteps(cfg, s, e);
    }
  }

  lemma WriterControlSteps(cfg: Config, s: State, e: Event)
    requires cfg.Valid() && ThreadControl(cfg, s) && Enabled(cfg, s, e) && IsWriterStep(e)
    ensures var s' := Apply(cfg, s, e); WriterSteps(s') < WriterSteps(s) && StopSteps(s') == StopSteps(s)
  {
    hide NotBefore, Enumerates, WriteSpec, Starts, Reaches;
  }

  /** Once stop is requested, every step but a submission strictly decreases the steps left. */
  lemma StopStepDecreases(cfg: Config, s: State, e: Event)
    requires cfg.Valid() && ThreadControl(cfg, s) && Enabled(cfg, s, e) && !s.stopper.Running? && !IsSubmission(e)
    ensures StepsLeft(Apply(cfg, s, e)) < StepsLeft(s)
  {
    ControlSteps(cfg, s, e);
    hide Enabled, Apply, WorkLeft, WriterSteps, StopSteps, ThreadControl;
    if IsStageStep(e) {
      StageStepDecreases(cfg, s, e);
    } else {
      OtherStepsKeepWork(cfg, s, e);
    }
  }

  /** Every finite map can be listed, so an extraction is always possible. */
  lemma {:induction false} CanEnumerate(m: Windows) returns (lines: seq<WindowStats>)
    requires forall k :: k in m ==> m[k].Id() == k
    ensures Enumerates(lines, m)
    decreases |m|
  {
    if m == map[] {
      lines := [];
    } else {
      var k :| k in m;
      var rest := m - {k};
      assert |rest| < |m| by {
        assert rest.Keys == m.Keys - {k};
        assert |rest| == |rest.Keys| && |m| == |m.Keys|;
      }
      var listed := CanEnumerate(rest);
      lines := listed + [m[k]];
      assert forall j :: 0 <= j < |listed| ==> listed[j].Id() in rest;
      assert forall j :: j in m ==> j == k || j in rest;
    }
  }

  lemma CanEnumerateBefore(m: Windows, mark: nat, window: nat) returns (lines: seq<WindowStats>)
    requires window > 0 && WellFormed(m, window)
    ensures Enumerates(lines, Before(m, mark))
  {
    hide Enumerates;
    lines := CanEnumerate(Before(m, mark));
  }

  lemma FinalCanFinish(cfg: Config, s: State) returns (e: Event)
    requires cfg.Valid() && ThreadControl(cfg, s) && ShardsContents(cfg, s) && s.stopper.FinalFlush?
    ensures !IsSubmission(e) && Enabled(cfg, s, e)
  {
    var next := s.stopper.next;
    if next == |s.shards| {
      e := FinalWrite;
    } else {
      assert ShardContents(cfg, next, s.shards[next].windows);
      hide Enumerates;
      var result := CanEnumerate(s.shards[next].windows);
      e := FinalExtract(result);
    }
  }

  lemma JoinCanFinish(cfg: Config, s: State) returns (e: Event)
    requires cfg.Valid() && Control(cfg, s) && (s.stopper.JoinParser? || s.stopper.JoiningShards?)
    ensures !IsSubmission(e) && Enabled(cfg, s, e)
  {
    if s.stopper.JoinParser? {
      if s.parser.ParserExited? {
        e := StopJoinParser;
      } else {
        e := ParserCanFinish(cfg, s);
      }
    } else {
      var next := s.stopper.next;
      assert ShardControl(cfg, s.stopper, next, s.shards[next]);
      if s.shards[next].exited {
        e := StopJoinShard;
      } else {
        e := ShardCanFinish(cfg, s, next);
      }
    }
  }

  /** Until `stop()` returns, some step other than a submission is always possible. */
  lemma StopNeverStuck(cfg: Config, s: State) returns (e: Event)
    requires cfg.Valid() && Inv(cfg, s) && !s.stopper.Running? && !s.stopper.Stopped?
    ensures !IsSubmission(e) && Enabled(cfg, s, e)
  {
    hide HandOff, Balanced, Enumerates, ShardsControl, ShardsContents, PipelineOrder.Order, AllSound, SortedBlocks, CollectedOnce;
    if !s.writer.WriterExited? {
      e := WriterCanFinish(cfg, s);
    } else if s.stopper.JoinWriter? {
      e := StopCloseRaw;
    } else if s.stopper.ClosingShards? {
      e := StopCloseShard;
    } else if s.stopper.FinalFlush? {
      e := FinalCanFinish(cfg, s);
    } else {
      e := JoinCanFinish(cfg, s);
    }
  }

  ghost predicate IsWriterStep(e: Event) {
    e.FlushExtract? || e.FlushWrite? || e.WriterExit?
  }

  /** The writer is never blocked: the join on it is reached however busy the submitters are. */
  lemma WriterCanFinish(cfg: Config, s: State) returns (e: Event)
    requires cfg.Valid() && ThreadControl(cfg, s) && ShardsContents(cfg, s) && !s.stopper.Running? && !s.writer.WriterExited?
    ensures IsWriterStep(e) && Enabled(cfg, s, e) && WriterSteps(Apply(cfg, s, e)) < WriterSteps(s)
  {
    hide Enumerates, NotBefore, WriteSpec, Starts, Reaches, WellFormed;
    if s.writer.Waiting? {
      e := WriterExit;
    } else if s.writer.next == |s.shards| {
      e := FlushWrite;
    } else {
      assert ShardContents(cfg, s.writer.next, s.shards[s.writer.next].windows);
      var result := CanEnumerateBefore(s.shards[s.writer.next].windows, s.writer.mark, cfg.window);
      e := FlushExtract(result);
    }
  }

  lemma OthersLeaveWriter(cfg: Config, s: State, e: Event)
    requires cfg.Valid() && Enabled(cfg, s, e) && !s.stopper.Running? && !IsWriterStep(e)
    ensures WriterSteps(Apply(cfg, s, e)) == WriterSteps(s)
  {
    hide WindowStart, AddTrade, NotBefore, Enumerates, WriteSpec;
  }

  /** The steps of a run that are not submissions. */
  ghost function StepCount(es: seq<Event>): nat {
    if es == [] then 0 else (if IsSubmission(es[0]) then 0 else 1) + StepCount(es[1..])
  }

  ghost function WriterStepCount(es: seq<Event>): nat {
    if es == [] then 0 else (if IsWriterStep(es[0]) then 1 else 0) + WriterStepCount(es[1..])
  }

  /**
   The join on the writer is reached: in any run after the stop request, with any number of
   submissions, the writer takes at most `WriterSteps` more steps.
   */
  lemma {:induction false} WriterStops(cfg: Config, s: State, es: seq<Event>, s': State)
    requires cfg.Valid() && Inv(cfg, s) && !s.stopper.Running? && Runs(cfg, s, es, s')
    ensures WriterStepCount(es) + WriterSteps(s') <= WriterSteps(s)
    decreases |es|
  {
    hide Inv, Enabled, Apply, WriterSteps;
    if es != [] {
      StaysStopping(cfg, s, es[0]);
      StepInv(cfg, s, es[0]);
      if IsWriterStep(es[0]) {
        WriterStepDecreases(cfg, s, es[0]);
      } else {
        OthersLeaveWriter(cfg, s, es[0]);
      }
      WriterStops(cfg, Apply(cfg, s, es[0]), es[1..], s');
    }
  }

  lemma WriterStepDecreases(cfg: Config, s: State, e: Event)
    requires cfg.Valid() && Enabled(cfg, s, e) && IsWriterStep(e)
    ensures WriterSteps(Apply(cfg, s, e)) < WriterSteps(s)
  {
    hide NotBefore, Enumerates, WriteSpec;
  }

  /**
   `stop()` terminates: once the raw queue is shut down, any run whatsoever has at most
   `StepsLeft` steps besides refused submissions, and where no further step is possible `stop()`
   has returned.
   */
  lemma {:induction false} StopTerminates(cfg: Config, s: State, es: seq<Event>, s': State)
    requires cfg.Valid() && Inv(cfg, s) && s.raw.closed && Runs(cfg, s, es, s')
    ensures StepCount(es) + StepsLeft(s') <= StepsLeft(s)
    ensures (forall e :: Enabled(cfg, s', e) ==> IsSubmission(e)) ==> s'.stopper.Stopped?
    decreases |es|
  {
    hide Inv, Enabled, Apply, StepsLeft;
    InvThreads(cfg, s);
    if es == [] {
      QuietIsStopped(cfg, s);
    } else {
      ClosedStep(cfg, s, es[0]);
      StepInv(cfg, s, es[0]);
      StopTerminates(cfg, Apply(cfg, s, es[0]), es[1..], s');
    }
  }

  /** After the shutdown of the raw queue a submission changes nothing, and every other step makes progress. */
  lemma ClosedStep(cfg: Config, s: State, e: Event)
    requires cfg.Valid() && Inv(cfg, s) && s.raw.closed && Enabled(cfg, s, e)
    ensures Apply(cfg, s, e).raw.closed
    ensures if IsSubmission(e) then Apply(cfg, s, e) == s else StepsLeft(Apply(cfg, s, e)) < StepsLeft(s)
  {
    hide Inv, StepsLeft, WindowStart, AddTrade, NotBefore, Enumerates, WriteSpec;
    InvThreads(cfg, s);
    if !IsSubmission(e) {
      StopStepDecreases(cfg, s, e);
    }
  }

  lemma InvThreads(cfg: Config, s: State)
    requires cfg.Valid() && Inv(cfg, s)
    ensures ThreadControl(cfg, s)
  {
  }

  lemma QuietIsStopped(cfg: Config, s: State)
    requires cfg.Valid() && Inv(cfg, s) && !s.stopper.Running?
    ensures (forall e :: Enabled(cfg, s, e) ==> IsSubmission(e)) ==> s.stopper.Stopped?
  {
    hide Inv, Enabled;
    if !s.stopper.Stopped? {
      var e := StopNeverStuck(cfg, s);
    }
  }

  lemma StaysStopping(cfg: Config, s: State, e: Event)
    requires cfg.Valid() && Enabled(cfg, s, e) && !s.stopper.Running?
    ensures !Apply(cfg, s, e).stopper.Running?
  {
    hide WindowStart, AddTrade, NotBefore, Enumerates, WriteSpec;
  }

  /** After the join on the parser nothing is left to parse; after the other joins nothing to add. */
  lemma JoinsDrain(cfg: Config, s: State)
    requires cfg.Valid() && Reachable(cfg, s)
    ensures Stage(s.stopper) >= 3 ==> s.raw.items == [] && s.parser.ParserExited?
    ensures Stage(s.stopper) >= 5 ==> InFlight(s) == 0
  {
    ReachableInv(cfg, s);
    hide Contents, HandOff, Reachable, PipelineOrder.Order, Total;
    if Stage(s.stopper) >= 5 {
      forall i | 0 <= i < |s.shards|
        ensures Occupied(s.shards[i]) <= 0
      {
        assert ShardControl(cfg, s.stopper, i, s.shards[i]);
      }
      TotalBound(Occupied, s.shards, 0);
    }
  }
}
