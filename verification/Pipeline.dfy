/**
 The pipeline as a system of steps: `agg::runtime::MarketDataPipeline`.

 Submitters, the parser thread, one aggregation thread per shard, the writer thread and the
 thread that calls `stop()` interleave freely. A step is one critical section: a queue operation
 whose wait predicate holds, one trade added under a shard's mutex, one shard extracted under
 its mutex, one group of windows written, or one action of `stop()`. The hash of a symbol, the
 message parser and the clock readings are arbitrary.

 The state carries history that the program does not store: the messages whose submission
 succeeded; per shard the trades added and the highest watermark it was extracted with; whether
 a late trade was ever added, one whose window starts before its shard's watermark; and whether a
 trade was ever overtaken. A trade is overtaken when it is added to a window that starts no later
 than one already written, or when it is added to a shard that the flush in progress has already
 visited and that flush then writes a window starting no earlier than the trade's.
 */
module Pipeline {
  import opened Options
  import opened Statistics
  import opened Snapshots
  import opened BoundedQueues

  type Message = string

  function MaxNat(a: nat, b: nat): (r: nat)
    ensures r >= a && r >= b && (r == a || r == b)
  {
    if a < b then b else a
  }

  datatype Config = Config(
    window: nat, capacity: nat, threads: nat, hash: string -> nat, parse: Message -> Option<Trade>)
  {
    predicate Valid() {
      window > 0 && capacity >= 1
    }

    function ShardCount(): (n: nat)
      ensures n >= 1
    {
      MaxNat(threads, 1)
    }

    function ShardCapacity(): (c: nat)
      ensures c >= 1
    {
      MaxNat(capacity / ShardCount(), 1)
    }

    function ShardOf(symbol: string): (i: nat)
      ensures i < ShardCount()
    {
      hash(symbol) % ShardCount()
    }
  }

  lemma Quotient(x: nat, n: nat)
    requires n > 0
    ensures x == x / n * n + x % n && 0 <= x % n < n
    ensures x / n == 0 <==> x < n
  {
  }

  /**
   One shard per configured thread, at least one; together the shards' queues get the raw queue's
   capacity, rounded down to a multiple of their number, unless that leaves a queue without any
   place.
   */
  lemma ShardSizes(cfg: Config)
    ensures if cfg.threads == 0 then cfg.ShardCount() == 1 else cfg.ShardCount() == cfg.threads
    ensures if cfg.capacity < cfg.ShardCount() then cfg.ShardCapacity() == 1
            else 0 <= cfg.capacity - cfg.ShardCapacity() * cfg.ShardCount() < cfg.ShardCount()
  {
    Quotient(cfg.capacity, cfg.ShardCount());
  }

  /** A symbol goes to the shard its hash leaves as a remainder. */
  lemma Routing(cfg: Config, symbol: string)
    ensures exists q: nat :: cfg.hash(symbol) == q * cfg.ShardCount() + cfg.ShardOf(symbol)
  {
    Quotient(cfg.hash(symbol), cfg.ShardCount());
    assert cfg.hash(symbol) == cfg.hash(symbol) / cfg.ShardCount() * cfg.ShardCount() + cfg.ShardOf(symbol);
  }

  datatype Shard = Shard(
    queue: Queue<Trade>,                  // the shard's queue
    hand: Option<Trade>, exited: bool,    // its aggregation thread: the trade popped but not yet added
    windows: Windows,                     // its aggregator
    ingested: seq<Trade>, mark: nat)      // history: trades added, highest watermark

  datatype Parser = Popping | Holding(trade: Trade) | ParserExited

  datatype Writer =
    | Waiting
    | Flushing(mark: nat, next: nat, collected: seq<WindowStats>)
    | WriterExited

  /** Where the thread in `stop()` is; `Running` before the call. */
  datatype Stopper =
    | Running
    | JoinWriter
    | JoinParser
    | ClosingShards(next: nat)
    | JoiningShards(next: nat)
    | FinalFlush(next: nat, collected: seq<WindowStats>)
    | Stopped

  datatype State = State(
    accepted: seq<Message>,               // history: successful submissions
    raw: Queue<Message>,
    parser: Parser, lost: seq<Trade>,     // `lost`: trades whose push the parser saw refused
    shards: seq<Shard>,
    writer: Writer, stopper: Stopper,
    sink: seq<Snapshot>,
    settled: nat, late: bool,             // history: highest watermark fully flushed; a late trade was added
    passed: set<nat>, overtaken: bool)    // history: windows added to behind the flush in progress; a trade was overtaken

  datatype Event =
    | Submit(msg: Message) | SubmitRefused(msg: Message)
    | ParserPop | ParserPush | ParserExit
    | AggregatorPop(i: nat) | AggregatorAdd(i: nat) | AggregatorExit(i: nat)
    | FlushBegin(now: nat) | FlushExtract(result: seq<WindowStats>) | FlushWrite | WriterExit
    | StopRequest | StopCloseRaw | StopJoinParser | StopCloseShard | StopJoinShard
    | FinalExtract(result: seq<WindowStats>) | FinalWrite

  function Initial(cfg: Config): State
    requires cfg.Valid()
  {
    State([], Queue([], false), Popping, [],
          seq(cfg.ShardCount(), _ => Shard(Queue([], false), None, false, map[], [], 0)),
          Waiting, Running, [], 0, false, {}, false)
  }

  ghost predicate Enabled(cfg: Config, s: State, e: Event)
    requires cfg.Valid()
  {
    match e
    case Submit(m) => s.raw.Push(cfg.capacity, m).0.Pushed?
    case SubmitRefused(m) => s.raw.Push(cfg.capacity, m).0.Refused?
    case ParserPop => s.parser.Popping? && s.raw.Pop().0.Popped?
    case ParserExit => s.parser.Popping? && s.raw.Pop().0.Drained?
    case ParserPush =>
      && s.parser.Holding? && cfg.ShardOf(s.parser.trade.symbol) < |s.shards|
      && !s.shards[cfg.ShardOf(s.parser.trade.symbol)].queue.Push(cfg.ShardCapacity(), s.parser.trade).0.MustWaitForSpace?
    case AggregatorPop(i) =>
      i < |s.shards| && !s.shards[i].exited && s.shards[i].hand.None? && s.shards[i].queue.Pop().0.Popped?
    case AggregatorAdd(i) => i < |s.shards| && s.shards[i].hand.Some?
    case AggregatorExit(i) =>
      i < |s.shards| && !s.shards[i].exited && s.shards[i].hand.None? && s.shards[i].queue.Pop().0.Drained?
    case FlushBegin(_) => s.writer.Waiting? && s.stopper.Running?
    case FlushExtract(result) =>
      && s.writer.Flushing? && s.writer.next < |s.shards|
      && Enumerates(result, Before(s.shards[s.writer.next].windows, s.writer.mark))
    case FlushWrite => s.writer.Flushing? && s.writer.next == |s.shards|
    case WriterExit => s.writer.Waiting? && !s.stopper.Running?
    case StopRequest => s.stopper.Running?
    case StopCloseRaw => s.stopper.JoinWriter? && s.writer.WriterExited?
    case StopJoinParser => s.stopper.JoinParser? && s.parser.ParserExited?
    case StopCloseShard => s.stopper.ClosingShards? && s.stopper.next < |s.shards|
    case StopJoinShard => s.stopper.JoiningShards? && s.stopper.next < |s.shards| && s.shards[s.stopper.next].exited
    case FinalExtract(result) =>
      && s.stopper.FinalFlush? && s.stopper.next < |s.shards|
      && Enumerates(result, s.shards[s.stopper.next].windows)
    case FinalWrite => s.stopper.FinalFlush? && s.stopper.next == |s.shards|
  }

  function SetShard(s: State, i: nat, sh: Shard): State
    requires i < |s.shards|
  {
    s.(shards := s.shards[i := sh])
  }

  function Parsed(cfg: Config, m: Message): Parser {
    match cfg.parse(m)
    case Some(trade) => Holding(trade)
    case None => Popping
  }

  /** The parser's push, whose result it ignores. */
  function PushTrade(cfg: Config, s: State, i: nat, trade: Trade): State
    requires i < |s.shards|
  {
    var sh := s.shards[i];
    var (outcome, queue) := sh.queue.Push(cfg.ShardCapacity(), trade);
    if outcome.Refused? then s.(parser := Popping, lost := s.lost + [trade])
    else SetShard(s, i, sh.(queue := queue)).(parser := Popping)
  }

  function PopTrade(s: State, i: nat): State
    requires i < |s.shards| && s.shards[i].queue.Pop().0.Popped?
  {
    var (outcome, queue) := s.shards[i].queue.Pop();
    SetShard(s, i, s.shards[i].(queue := queue, hand := Some(outcome.item)))
  }

  /** The window starts of some lines. */
  ghost function Starts(lines: seq<WindowStats>): set<nat> {
    set x | x in lines :: x.start
  }

  /** Some window starts at or after this one. */
  ghost predicate Reaches(starts: set<nat>, start: nat) {
    exists w :: w in starts && start <= w
  }

  ghost function AddInShard(cfg: Config, s: State, i: nat): State
    requires cfg.Valid() && i < |s.shards| && s.shards[i].hand.Some?
  {
    var sh := s.shards[i];
    var trade := sh.hand.value;
    var start := WindowStart(trade.time, cfg.window);
    SetShard(s, i, sh.(hand := None, windows := AddTrade(sh.windows, cfg.window, trade), ingested := sh.ingested + [trade]))
      .(late := s.late || start < sh.mark,
        passed := if s.writer.Flushing? && i < s.writer.next then s.passed + {start} else s.passed,
        overtaken := s.overtaken || Reaches(Starts(Flatten(s.sink)), start))
  }

  function ExtractShard(s: State, result: seq<WindowStats>): State
    requires s.writer.Flushing? && s.writer.next < |s.shards|
  {
    var i := s.writer.next;
    var sh := s.shards[i];
    SetShard(s, i, sh.(windows := NotBefore(sh.windows, s.writer.mark), mark := MaxNat(sh.mark, s.writer.mark)))
      .(writer := Flushing(s.writer.mark, i + 1, s.writer.collected + result))
  }

  function FinalExtractShard(s: State, result: seq<WindowStats>): State
    requires s.stopper.FinalFlush? && s.stopper.next < |s.shards|
  {
    var i := s.stopper.next;
    SetShard(s, i, s.shards[i].(windows := map[])).(stopper := FinalFlush(i + 1, s.stopper.collected + result))
  }

  ghost function WriteFlush(s: State): State
    requires s.writer.Flushing?
  {
    s.(writer := Waiting, sink := s.sink + WriteSpec(s.writer.collected), settled := MaxNat(s.settled, s.writer.mark),
       overtaken := s.overtaken || exists p :: p in s.passed && Reaches(Starts(s.writer.collected), p))
  }

  ghost function Apply(cfg: Config, s: State, e: Event): State
    requires cfg.Valid() && Enabled(cfg, s, e)
  {
    match e
    case Submit(m) => s.(accepted := s.accepted + [m], raw := s.raw.Push(cfg.capacity, m).1)
    case SubmitRefused(_) => s
    case ParserPop => s.(raw := s.raw.Pop().1, parser := Parsed(cfg, s.raw.Pop().0.item))
    case ParserExit => s.(parser := ParserExited)
    case ParserPush => PushTrade(cfg, s, cfg.ShardOf(s.parser.trade.symbol), s.parser.trade)
    case AggregatorPop(i) => PopTrade(s, i)
    case AggregatorAdd(i) => AddInShard(cfg, s, i)
    case AggregatorExit(i) => SetShard(s, i, s.shards[i].(exited := true))
    case FlushBegin(now) => s.(writer := Flushing(WindowStart(now, cfg.window), 0, []), passed := {})
    case FlushExtract(result) => ExtractShard(s, result)
    case FlushWrite => WriteFlush(s)
    case WriterExit => s.(writer := WriterExited)
    case StopRequest => s.(stopper := JoinWriter)
    case StopCloseRaw => s.(stopper := JoinParser, raw := s.raw.Shutdown())
    case StopJoinParser => s.(stopper := ClosingShards(0))
    case StopCloseShard =>
      var i := s.stopper.next;
      SetShard(s, i, s.shards[i].(queue := s.shards[i].queue.Shutdown()))
        .(stopper := if i + 1 == |s.shards| then JoiningShards(0) else ClosingShards(i + 1))
    case StopJoinShard =>
      var i := s.stopper.next;
      s.(stopper := if i + 1 == |s.shards| then FinalFlush(0, []) else JoiningShards(i + 1))
    case FinalExtract(result) => FinalExtractShard(s, result)
    case FinalWrite => s.(stopper := Stopped, sink := s.sink + WriteSpec(s.stopper.collected))
  }

  /** A run: the events in order, each enabled when it happens. */
  ghost predicate Runs(cfg: Config, s: State, es: seq<Event>, s': State)
    requires cfg.Valid()
    decreases |es|
  {
    if es == [] then s == s' else Enabled(cfg, s, es[0]) && Runs(cfg, Apply(cfg, s, es[0]), es[1..], s')
  }

  /** A state some run leads to. */
  ghost predicate Reachable(cfg: Config, s: State)
    requires cfg.Valid()
  {
    exists es :: Runs(cfg, Initial(cfg), es, s)
  }

  /** The valid trades among some messages, in order. */
  function Trades(cfg: Config, msgs: seq<Message>): seq<Trade> {
    if msgs == [] then [] else
      Trades(cfg, msgs[..|msgs| - 1]) +
      match cfg.parse(msgs[|msgs| - 1]) { case Some(t) => [t] case None => [] }
  }
}
