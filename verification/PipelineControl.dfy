/**
 Where the threads can be, and the hand-off of trades from queue to queue.

 `Control` is the order `stop()` imposes: it is why the parser, which ignores whether its push
 succeeded, never loses a trade. `HandOff` says that, per shard, what was added, what is in
 hand, queued and still to be parsed is, in order, exactly what was accepted.
 */
module PipelineControl {
  import opened Options
  import opened Statistics
  import opened Snapshots
  import opened BoundedQueues
  import opened Pipeline

  /** How far `stop()` has come. */
  function Stage(st: Stopper): nat {
    match st
    case Running => 0
    case JoinWriter => 1
    case JoinParser => 2
    case ClosingShards(_) => 3
    case JoiningShards(_) => 4
    case FinalFlush(_, _) => 5
    case Stopped => 6
  }

  ghost predicate ShardControl(cfg: Config, st: Stopper, i: nat, sh: Shard) {
    && (sh.queue.closed <==> Stage(st) >= 4 || (st.ClosingShards? && i < st.next))
    && (sh.exited ==> sh.queue.closed && sh.queue.items == [] && sh.hand.None?)
    && (st.JoiningShards? && i < st.next ==> sh.exited)
    && (Stage(st) >= 5 ==> sh.exited)
    && (st.FinalFlush? && i < st.next ==> sh.windows == map[])
    && (st.Stopped? ==> sh.windows == map[])
    && |sh.queue.items| <= cfg.ShardCapacity()
  }

  ghost predicate ShardsControl(cfg: Config, s: State) {
    forall i :: 0 <= i < |s.shards| ==> ShardControl(cfg, s.stopper, i, s.shards[i])
  }

  ghost predicate ThreadControl(cfg: Config, s: State) {
    && |s.shards| == cfg.ShardCount()
    && (s.raw.closed <==> Stage(s.stopper) >= 2)
    && (Stage(s.stopper) >= 2 ==> s.writer.WriterExited?)
    && (s.writer.WriterExited? ==> Stage(s.stopper) >= 1)
    && (s.writer.Flushing? ==> s.writer.next <= |s.shards|)
    && (s.parser.ParserExited? ==> s.raw.closed && s.raw.items == [])
    && (Stage(s.stopper) >= 3 ==> s.parser.ParserExited?)
    && (s.stopper.ClosingShards? || s.stopper.JoiningShards? ==> s.stopper.next < |s.shards|)
    && (s.stopper.FinalFlush? ==> s.stopper.next <= |s.shards|)
    && |s.raw.items| <= cfg.capacity
    && s.lost == []
  }

  ghost predicate Control(cfg: Config, s: State) {
    ThreadControl(cfg, s) && ShardsControl(cfg, s)
  }

  lemma InitialControl(cfg: Config)
    requires cfg.Valid()
    ensures Control(cfg, Initial(cfg))
  {
  }

  lemma StepThreadControl(cfg: Config, s: State, e: Event)
    requires cfg.Valid() && Control(cfg, s) && Enabled(cfg, s, e)
    ensures ThreadControl(cfg, Apply(cfg, s, e))
  {
    hide WindowStart, AddTrade, NotBefore, Enumerates, WriteSpec;
    if e.ParserPush? {
      var i := cfg.ShardOf(s.parser.trade.symbol);
      assert ShardControl(cfg, s.stopper, i, s.shards[i]);
    }
  }

  /** The steps of the thread in `stop()`; only they change how far it has come. */
  ghost predicate IsStopStep(e: Event) {
    || e.StopRequest? || e.StopCloseRaw? || e.StopJoinParser? || e.StopCloseShard?
    || e.StopJoinShard? || e.FinalExtract? || e.FinalWrite?
  }

  lemma EarlyStopShardControl(cfg: Config, s: State, e: Event, i: nat)
    requires cfg.Valid() && ThreadControl(cfg, s) && Enabled(cfg, s, e)
    requires e.StopRequest? || e.StopCloseRaw? || e.StopJoinParser? || e.StopCloseShard?
    requires i < |s.shards| && ShardControl(cfg, s.stopper, i, s.shards[i])
    ensures var s' := Apply(cfg, s, e); |s'.shards| == |s.shards| && ShardControl(cfg, s'.stopper, i, s'.shards[i])
  {
  }

  lemma LateStopShardControl(cfg: Config, s: State, e: Event, i: nat)
    requires cfg.Valid() && ThreadControl(cfg, s) && Enabled(cfg, s, e)
    requires e.StopJoinShard? || e.FinalExtract? || e.FinalWrite?
    requires i < |s.shards| && ShardControl(cfg, s.stopper, i, s.shards[i])
    ensures var s' := Apply(cfg, s, e); |s'.shards| == |s.shards| && ShardControl(cfg, s'.stopper, i, s'.shards[i])
  {
    hide Enumerates, WriteSpec;
  }

  /** The steps of the parser and of the aggregation threads. */
  ghost predicate IsStageStep(e: Event) {
    e.ParserPop? || e.ParserPush? || e.ParserExit? || e.AggregatorPop? || e.AggregatorAdd? || e.AggregatorExit?
  }

  lemma ParserShardControl(cfg: Config, s: State, e: Event, i: nat)
    requires cfg.Valid() && Enabled(cfg, s, e) && (e.ParserPop? || e.ParserPush? || e.ParserExit?)
    requires i < |s.shards| && ShardControl(cfg, s.stopper, i, s.shards[i])
    ensures var s' := Apply(cfg, s, e); |s'.shards| == |s.shards| && ShardControl(cfg, s'.stopper, i, s'.shards[i])
  {
  }

  lemma AggregatorShardControl(cfg: Config, s: State, e: Event, i: nat)
    requires cfg.Valid() && Enabled(cfg, s, e) && (e.AggregatorPop? || e.AggregatorAdd? || e.AggregatorExit?)
    requires i < |s.shards| && ShardControl(cfg, s.stopper, i, s.shards[i])
    ensures var s' := Apply(cfg, s, e); |s'.shards| == |s.shards| && ShardControl(cfg, s'.stopper, i, s'.shards[i])
  {
    hide WindowStart, AddTrade, Starts, Reaches, Flatten;
  }

  lemma OtherShardControl(cfg: Config, s: State, e: Event, i: nat)
    requires cfg.Valid() && ThreadControl(cfg, s) && Enabled(cfg, s, e) && !IsStopStep(e) && !IsStageStep(e)
    requires i < |s.shards| && ShardControl(cfg, s.stopper, i, s.shards[i])
    ensures var s' := Apply(cfg, s, e); |s'.shards| == |s.shards| && ShardControl(cfg, s'.stopper, i, s'.shards[i])
  {
    hide WindowStart, NotBefore, Enumerates, WriteSpec, Starts, Reaches;
  }

  lemma StepShardsControl(cfg: Config, s: State, e: Event)
    requires cfg.Valid() && Control(cfg, s) && Enabled(cfg, s, e)
    ensures ShardsControl(cfg, Apply(cfg, s, e))
  {
    var s' := Apply(cfg, s, e);
    StepThreadControl(cfg, s, e);
    hide Apply, Enabled, ShardControl;
    forall i | 0 <= i < |s'.shards|
      ensures ShardControl(cfg, s'.stopper, i, s'.shards[i])
    {
      if e.StopJoinShard? || e.FinalExtract? || e.FinalWrite? {
        LateStopShardControl(cfg, s, e, i);
      } else if IsStopStep(e) {
        EarlyStopShardControl(cfg, s, e, i);
      } else if e.AggregatorPop? || e.AggregatorAdd? || e.AggregatorExit? {
        AggregatorShardControl(cfg, s, e, i);
      } else if IsStageStep(e) {
        ParserShardControl(cfg, s, e, i);
      } else {
        OtherShardControl(cfg, s, e, i);
      }
    }
  }

  /** Every step respects the order of `stop()`; in particular no push of the parser is refused. */
  lemma StepControl(cfg: Config, s: State, e: Event)
    requires cfg.Valid() && Control(cfg, s) && Enabled(cfg, s, e)
    ensures Control(cfg, Apply(cfg, s, e))
  {
    hide ThreadControl, ShardsControl, Enabled, Apply;
    StepThreadControl(cfg, s, e);
    StepShardsControl(cfg, s, e);
  }

  // ------------------------------------------------------------ hand-off

  /** The trade of a message, if it is valid and goes to the shard. */
  function TradeFor(cfg: Config, m: Message, i: nat): seq<Trade> {
    match cfg.parse(m)
    case Some(t) => if cfg.ShardOf(t.symbol) == i then [t] else []
    case None => []
  }

  /** The valid trades of a shard among some messages, in order. */
  function Feed(cfg: Config, msgs: seq<Message>, i: nat): seq<Trade> {
    if msgs == [] then [] else Feed(cfg, msgs[..|msgs| - 1], i) + TradeFor(cfg, msgs[|msgs| - 1], i)
  }

  function HeldFor(cfg: Config, p: Parser, i: nat): seq<Trade> {
    if p.Holding? && cfg.ShardOf(p.trade.symbol) == i then [p.trade] else []
  }

  function InHand(sh: Shard): seq<Trade> {
    if sh.hand.Some? then [sh.hand.value] else []
  }

  /** Added, in hand, queued, held by the parser and still to be parsed: together what was accepted. */
  ghost predicate Handed(cfg: Config, i: nat, sh: Shard, p: Parser, raw: seq<Message>, accepted: seq<Message>) {
    sh.ingested + (InHand(sh) + (sh.queue.items + (HeldFor(cfg, p, i) + Feed(cfg, raw, i)))) == Feed(cfg, accepted, i)
  }

  ghost predicate HandOff(cfg: Config, s: State) {
    forall i :: 0 <= i < |s.shards| ==> Handed(cfg, i, s.shards[i], s.parser, s.raw.items, s.accepted)
  }

  lemma FeedSnoc(cfg: Config, msgs: seq<Message>, m: Message, i: nat)
    ensures Feed(cfg, msgs + [m], i) == Feed(cfg, msgs, i) + TradeFor(cfg, m, i)
  {
  }

  lemma {:induction false} FeedCons(cfg: Config, msgs: seq<Message>, i: nat)
    requires msgs != []
    ensures Feed(cfg, msgs, i) == TradeFor(cfg, msgs[0], i) + Feed(cfg, msgs[1..], i)
  {
    var n := |msgs| - 1;
    if n > 0 {
      FeedCons(cfg, msgs[..n], i);
      assert msgs[..n][1..] + [msgs[n]] == msgs[1..];
      FeedSnoc(cfg, msgs[..n][1..], msgs[n], i);
    } else {
      assert msgs[..n] == [] && msgs[1..] == [];
    }
  }

  lemma InitialHandOff(cfg: Config)
    requires cfg.Valid()
    ensures HandOff(cfg, Initial(cfg))
  {
  }

  lemma SubmitHandOff(cfg: Config, i: nat, sh: Shard, p: Parser, raw: seq<Message>, accepted: seq<Message>, m: Message)
    requires Handed(cfg, i, sh, p, raw, accepted)
    ensures Handed(cfg, i, sh, p, raw + [m], accepted + [m])
  {
    FeedSnoc(cfg, accepted, m, i);
    FeedSnoc(cfg, raw, m, i);
    hide Feed, HeldFor, TradeFor;
    var held, fed, t := HeldFor(cfg, p, i), Feed(cfg, raw, i), TradeFor(cfg, m, i);
    assert sh.ingested + (InHand(sh) + (sh.queue.items + (held + (fed + t))))
        == sh.ingested + (InHand(sh) + (sh.queue.items + (held + fed))) + t;
  }

  lemma PopHandOff(cfg: Config, i: nat, sh: Shard, raw: seq<Message>, accepted: seq<Message>)
    requires raw != [] && Handed(cfg, i, sh, Popping, raw, accepted)
    ensures Handed(cfg, i, sh, Parsed(cfg, raw[0]), raw[1..], accepted)
  {
    FeedCons(cfg, raw, i);
    hide Feed;
    assert HeldFor(cfg, Parsed(cfg, raw[0]), i) == TradeFor(cfg, raw[0], i);
    assert [] + Feed(cfg, raw, i) == Feed(cfg, raw, i);
  }

  lemma PushHandOff(cfg: Config, i: nat, sh: Shard, t: Trade, raw: seq<Message>, accepted: seq<Message>)
    requires Handed(cfg, i, sh, Holding(t), raw, accepted)
    ensures cfg.ShardOf(t.symbol) == i ==> Handed(cfg, i, sh.(queue := Queue(sh.queue.items + [t], false)), Popping, raw, accepted)
    ensures cfg.ShardOf(t.symbol) != i ==> Handed(cfg, i, sh, Popping, raw, accepted)
  {
    hide Feed;
    var fed := Feed(cfg, raw, i);
    assert [] + fed == fed;
    assert sh.queue.items + ([t] + fed) == sh.queue.items + [t] + fed;
  }

  lemma TakeHandOff(cfg: Config, i: nat, sh: Shard, p: Parser, raw: seq<Message>, accepted: seq<Message>)
    requires Handed(cfg, i, sh, p, raw, accepted) && sh.hand.None? && sh.queue.items != []
    ensures Handed(cfg, i, sh.(queue := sh.queue.Pop().1, hand := Some(sh.queue.items[0])), p, raw, accepted)
  {
    hide Feed, HeldFor;
    var rest := HeldFor(cfg, p, i) + Feed(cfg, raw, i);
    assert [] + (sh.queue.items + rest) == [sh.queue.items[0]] + (sh.queue.items[1..] + rest);
  }

  lemma AddHandOff(cfg: Config, i: nat, sh: Shard, windows: Windows, p: Parser, raw: seq<Message>, accepted: seq<Message>)
    requires Handed(cfg, i, sh, p, raw, accepted) && sh.hand.Some?
    ensures Handed(cfg, i, sh.(hand := None, windows := windows, ingested := sh.ingested + [sh.hand.value]), p, raw, accepted)
  {
  }

  /** Nothing else about a shard matters for its hand-off. */
  lemma SameHandOff(cfg: Config, i: nat, sh: Shard, sh': Shard, p: Parser, p': Parser, raw: seq<Message>, accepted: seq<Message>)
    requires Handed(cfg, i, sh, p, raw, accepted)
    requires sh'.ingested == sh.ingested && sh'.hand == sh.hand && sh'.queue.items == sh.queue.items
    requires p == p' || (!p.Holding? && !p'.Holding?)
    ensures Handed(cfg, i, sh', p', raw, accepted)
  {
  }

  ghost predicate HandedIn(cfg: Config, s: State, i: nat) {
    i < |s.shards| && Handed(cfg, i, s.shards[i], s.parser, s.raw.items, s.accepted)
  }

  lemma StageHanded(cfg: Config, s: State, e: Event, i: nat)
    requires cfg.Valid() && ThreadControl(cfg, s) && HandedIn(cfg, s, i) && Enabled(cfg, s, e) && IsStageStep(e)
    requires e.ParserPush? ==> !s.shards[cfg.ShardOf(s.parser.trade.symbol)].queue.closed
    ensures HandedIn(cfg, Apply(cfg, s, e), i)
  {
    hide Feed, HeldFor, TradeFor, AddTrade, WindowStart, Handed, Starts, Reaches, Flatten;
    var s', sh := Apply(cfg, s, e), s.shards[i];
    if e.ParserPop? {
      PopHandOff(cfg, i, sh, s.raw.items, s.accepted);
    } else if e.ParserPush? {
      PushHandOff(cfg, i, sh, s.parser.trade, s.raw.items, s.accepted);
    } else if e == AggregatorPop(i) {
      TakeHandOff(cfg, i, sh, s.parser, s.raw.items, s.accepted);
    } else if e == AggregatorAdd(i) {
      AddHandOff(cfg, i, sh, s'.shards[i].windows, s.parser, s.raw.items, s.accepted);
    } else {
      SameHandOff(cfg, i, sh, s'.shards[i], s.parser, s'.parser, s.raw.items, s.accepted);
    }
  }

  lemma OtherHanded(cfg: Config, s: State, e: Event, i: nat)
    requires cfg.Valid() && ThreadControl(cfg, s) && HandedIn(cfg, s, i) && Enabled(cfg, s, e) && !IsStageStep(e)
    ensures HandedIn(cfg, Apply(cfg, s, e), i)
  {
    hide Feed, HeldFor, TradeFor, WriteSpec, NotBefore, Enumerates, WindowStart, Handed, Starts, Reaches;
    if e.Submit? {
      SubmitHandOff(cfg, i, s.shards[i], s.parser, s.raw.items, s.accepted, e.msg);
    } else {
      SameHandOff(cfg, i, s.shards[i], Apply(cfg, s, e).shards[i], s.parser, s.parser, s.raw.items, s.accepted);
    }
  }

  lemma StepHanded(cfg: Config, s: State, e: Event, i: nat)
    requires cfg.Valid() && Control(cfg, s) && HandedIn(cfg, s, i) && Enabled(cfg, s, e)
    ensures HandedIn(cfg, Apply(cfg, s, e), i)
  {
    hide Apply, Handed, ThreadControl;
    if IsStageStep(e) {
      if e.ParserPush? {
        PushIsOpen(cfg, s);
      }
      StageHanded(cfg, s, e, i);
    } else {
      OtherHanded(cfg, s, e, i);
    }
  }

  /** While the parser holds a trade no shard is closed. */
  lemma PushIsOpen(cfg: Config, s: State)
    requires cfg.Valid() && Control(cfg, s) && Enabled(cfg, s, ParserPush)
    ensures !s.shards[cfg.ShardOf(s.parser.trade.symbol)].queue.closed
  {
    var i := cfg.ShardOf(s.parser.trade.symbol);
    assert ShardControl(cfg, s.stopper, i, s.shards[i]);
  }

  /** Every step keeps the hand-off. */
  lemma StepHandOff(cfg: Config, s: State, e: Event)
    requires cfg.Valid() && Control(cfg, s) && HandOff(cfg, s) && Enabled(cfg, s, e)
    ensures HandOff(cfg, Apply(cfg, s, e))
  {
    var s' := Apply(cfg, s, e);
    StepControl(cfg, s, e);
    assert |s'.shards| == |s.shards|;
    hide Apply, Enabled, Handed;
    forall i | 0 <= i < |s'.shards|
      ensures Handed(cfg, i, s'.shards[i], s'.parser, s'.raw.items, s'.accepted)
    {
      StepHanded(cfg, s, e, i);
    }
  }
}
