/**
 The bounded blocking queue: `agg::runtime::BoundedQueue`.

 `Queue` is the queue's value with its three operations, each under the mutex and with the wait
 predicate still to be tested. The class holds the fields and performs the operations in place;
 `WakeUps` is the queue as its threads see it: any number of callers, each at some point of one of
 the operations, with the two condition variables' waiting threads and the notifications sent
 after the mutex is released. The pipeline uses the same operations.
 */
module BoundedQueues {

  datatype PushOutcome = Pushed | Refused | MustWaitForSpace
  datatype PopOutcome<+T> = Popped(item: T) | Drained | MustWaitForItem

  datatype Queue<T> = Queue(items: seq<T>, closed: bool) {

    /** `push` under the mutex: fails once shut down, even if there is space. */
    function Push(capacity: nat, item: T): (PushOutcome, Queue<T>) {
      if closed then (Refused, this)
      else if |items| < capacity then (Pushed, Queue(items + [item], false))
      else (MustWaitForSpace, this)
    }

    /** `pop` under the mutex: drains what is queued before reporting the shutdown. */
    function Pop(): (PopOutcome<T>, Queue<T>) {
      if items != [] then (Popped(items[0]), Queue(items[1..], closed))
      else if closed then (Drained, this)
      else (MustWaitForItem, this)
    }

    function Shutdown(): Queue<T> {
      Queue(items, true)
    }
  }

  class BoundedQueue<T> {
    const capacity: nat
    var items: seq<T>
    var closed: bool

    ghost function Value(): Queue<T>
      reads this
    {
      Queue(items, closed)
    }

    constructor (capacity: nat)
      ensures this.capacity == capacity && Value() == Queue([], false)
    {
      this.capacity := capacity;
      this.items := [];
      this.closed := false;
    }

    method PushSection(item: T) returns (outcome: PushOutcome)
      modifies this
      ensures (outcome, Value()) == old(Value()).Push(capacity, item)
    {
      if !(closed || |items| < capacity) {
        return MustWaitForSpace;
      }
      if closed {
        return Refused;
      }
      items := items + [item];
      outcome := Pushed;
    }

    method PopSection() returns (outcome: PopOutcome<T>)
      modifies this
      ensures (outcome, Value()) == old(Value()).Pop()
    {
      if !(closed || items != []) {
        return MustWaitForItem;
      }
      if items == [] {
        return Drained;
      }
      outcome := Popped(items[0]);
      items := items[1..];
    }

    method Shutdown()
      modifies this
      ensures Value() == old(Value()).Shutdown()
    {
      closed := true;
    }
  }
}

/** The queue's threads, condition variables and notifications. */
module WakeUps {
  import opened Options
  import opened BoundedQueues

  /**
   Where a thread is: outside; about to take the mutex and test its predicate; waiting on a
   condition variable; or past its critical section with a notification still to be sent.
   */
  datatype Phase =
    | Idle
    | PushTest | PushParked | PushNotify
    | PopTest | PopParked | PopNotify
    | CloseNotifyFull | CloseNotifyEmpty

  datatype State<T> = State(capacity: nat, queue: Queue<T>, threads: seq<Phase>)

  /** The steps; a critical section shows what its caller sees of it. */
  datatype Event<T> =
    | CallPush(t: nat) | CallPop(t: nat) | CallShutdown(t: nat)
    | PushSection(t: nat, item: T, pushed: PushOutcome) | PopSection(t: nat, popped: PopOutcome<T>)
    | NotifyNotEmpty(t: nat, woken: Option<nat>) | NotifyNotFull(t: nat, woken: Option<nat>)
    | NotifyAllNotFull(t: nat) | NotifyAllNotEmpty(t: nat)
    | Spurious(t: nat)

  ghost predicate At<T>(s: State<T>, t: nat, p: Phase) {
    t < |s.threads| && s.threads[t] == p
  }

  function CountOf(threads: seq<Phase>, p: Phase): nat {
    multiset(threads)[p]
  }

  /** `notify_one` wakes some waiting thread, if there is one. */
  ghost predicate WakesOne<T>(s: State<T>, parked: Phase, woken: Option<nat>) {
    match woken
    case Some(w) => At(s, w, parked)
    case None => parked !in s.threads
  }

  ghost predicate Enabled<T>(s: State<T>, e: Event<T>) {
    match e
    case CallPush(t) => At(s, t, Idle)
    case CallPop(t) => At(s, t, Idle)
    case CallShutdown(t) => At(s, t, Idle)
    case PushSection(t, item, pushed) => At(s, t, PushTest) && pushed == s.queue.Push(s.capacity, item).0
    case PopSection(t, popped) => At(s, t, PopTest) && popped == s.queue.Pop().0
    case NotifyNotEmpty(t, woken) => At(s, t, PushNotify) && WakesOne(s, PopParked, woken)
    case NotifyNotFull(t, woken) => At(s, t, PopNotify) && WakesOne(s, PushParked, woken)
    case NotifyAllNotFull(t) => At(s, t, CloseNotifyFull)
    case NotifyAllNotEmpty(t) => At(s, t, CloseNotifyEmpty)
    case Spurious(t) => At(s, t, PushParked) || At(s, t, PopParked)
  }

  function Move<T>(s: State<T>, t: nat, p: Phase): State<T>
    requires t < |s.threads|
  {
    s.(threads := s.threads[t := p])
  }

  function Wake<T>(s: State<T>, woken: Option<nat>, p: Phase): State<T>
    requires woken.Some? ==> woken.value < |s.threads|
  {
    if woken.Some? then Move(s, woken.value, p) else s
  }

  function Replace(threads: seq<Phase>, from: Phase, to: Phase): seq<Phase> {
    if threads == [] then [] else
      Replace(threads[..|threads| - 1], from, to) + [if threads[|threads| - 1] == from then to else threads[|threads| - 1]]
  }

  ghost function Apply<T>(s: State<T>, e: Event<T>): State<T>
    requires Enabled(s, e)
  {
    match e
    case CallPush(t) => Move(s, t, PushTest)
    case CallPop(t) => Move(s, t, PopTest)
    case CallShutdown(t) => Move(s, t, CloseNotifyFull).(queue := s.queue.Shutdown())
    case PushSection(t, item, pushed) =>
      (match pushed
       case Pushed => Move(s, t, PushNotify).(queue := s.queue.Push(s.capacity, item).1)
       case Refused => Move(s, t, Idle)
       case MustWaitForSpace => Move(s, t, PushParked))
    case PopSection(t, popped) =>
      (match popped
       case Popped(_) => Move(s, t, PopNotify).(queue := s.queue.Pop().1)
       case Drained => Move(s, t, Idle)
       case MustWaitForItem => Move(s, t, PopParked))
    case NotifyNotEmpty(t, woken) => Move(Wake(s, woken, PopTest), t, Idle)
    case NotifyNotFull(t, woken) => Move(Wake(s, woken, PushTest), t, Idle)
    case NotifyAllNotFull(t) =>
      var woken := Move(s, t, CloseNotifyEmpty);
      woken.(threads := Replace(woken.threads, PushParked, PushTest))
    case NotifyAllNotEmpty(t) =>
      var woken := Move(s, t, Idle);
      woken.(threads := Replace(woken.threads, PopParked, PopTest))
    case Spurious(t) => Move(s, t, if s.threads[t] == PushParked then PushTest else PopTest)
  }

  ghost predicate Initial<T>(s: State<T>) {
    && s.capacity >= 1 && s.queue.items == [] && !s.queue.closed
    && forall t :: 0 <= t < |s.threads| ==> s.threads[t] == Idle
  }

  /** A run: the events in order, each enabled when it happens. */
  ghost predicate Runs<T>(s: State<T>, es: seq<Event<T>>, s': State<T>)
    decreases |es|
  {
    if es == [] then s == s' else Enabled(s, es[0]) && Runs(Apply(s, es[0]), es[1..], s')
  }

  // ------------------------------------------------------------ the invariant

  /** Queued items are covered by notifications to come or by consumers about to look. */
  ghost predicate ItemsCovered<T>(s: State<T>) {
    CountOf(s.threads, PopParked) > 0 ==>
      |s.queue.items| <= CountOf(s.threads, PushNotify) + CountOf(s.threads, PopTest)
  }

  /** Free space is covered in the same way, until shutdown makes pushing futile. */
  ghost predicate SpaceCovered<T>(s: State<T>) {
    !s.queue.closed && CountOf(s.threads, PushParked) > 0 ==>
      s.capacity - |s.queue.items| <= CountOf(s.threads, PopNotify) + CountOf(s.threads, PushTest)
  }

  /** After shutdown, a waiting thread has a `notify_all` still to come. */
  ghost predicate CloseCovered<T>(s: State<T>) {
    s.queue.closed ==>
      && (CountOf(s.threads, PushParked) > 0 ==> CountOf(s.threads, CloseNotifyFull) > 0)
      && (CountOf(s.threads, PopParked) > 0 ==>
            CountOf(s.threads, CloseNotifyFull) + CountOf(s.threads, CloseNotifyEmpty) > 0)
  }

  ghost predicate Inv<T>(s: State<T>) {
    && s.capacity >= 1 && |s.queue.items| <= s.capacity
    && ItemsCovered(s) && SpaceCovered(s) && CloseCovered(s)
  }

  lemma EmptyCount()
    ensures forall p :: CountOf([], p) == 0
  {
  }

  lemma CountSnoc(threads: seq<Phase>, q: Phase, p: Phase)
    ensures CountOf(threads + [q], p) == CountOf(threads, p) + if q == p then 1 else 0
  {
  }

  lemma {:induction false} ReplaceCount(threads: seq<Phase>, from: Phase, to: Phase, p: Phase)
    requires from != to
    ensures CountOf(Replace(threads, from, to), p) ==
              if p == from then 0
              else if p == to then CountOf(threads, to) + CountOf(threads, from)
              else CountOf(threads, p)
  {
    hide CountOf;
    if threads == [] {
      EmptyCount();
    } else {
      var init, last := threads[..|threads| - 1], threads[|threads| - 1];
      ReplaceCount(init, from, to, p);
      assert threads == init + [last];
      CountSnoc(init, last, p);
      CountSnoc(init, last, from);
      CountSnoc(Replace(init, from, to), if last == from then to else last, p);
    }
  }

  /** All counts after one thread moved. */
  lemma CountsAfterMove(threads: seq<Phase>, t: nat, p: Phase)
    requires t < |threads|
    ensures forall q :: CountOf(threads[t := p], q) ==
              CountOf(threads, q) + (if p == q then 1 else 0) - (if threads[t] == q then 1 else 0)
    ensures CountOf(threads, threads[t]) >= 1
  {
  }

  lemma PresentCount(threads: seq<Phase>, p: Phase)
    ensures CountOf(threads, p) > 0 <==> p in threads
  {
  }

  lemma InitialInv<T>(s: State<T>)
    requires Initial(s)
    ensures Inv(s)
  {
  }

  /** Entering an operation, or waking up for no reason. */
  lemma MoveInv<T>(s: State<T>, t: nat, p: Phase)
    requires Inv(s) && (At(s, t, Idle) || At(s, t, PushParked) || At(s, t, PopParked))
    requires p == PushTest || p == PopTest
    ensures Inv(Move(s, t, p))
  {
    hide CountOf;
    CountsAfterMove(s.threads, t, p);
  }

  lemma ShutdownInv<T>(s: State<T>, t: nat)
    requires Inv(s) && At(s, t, Idle)
    ensures Inv(Move(s, t, CloseNotifyFull).(queue := s.queue.Shutdown()))
  {
  }

  lemma PushSectionInv<T>(s: State<T>, e: Event<T>, t: nat)
    requires Inv(s) && e.PushSection? && Enabled(s, e) && t == e.t
    ensures Inv(Apply(s, e))
  {
    hide CountOf;
    if s.queue.closed {
      CountsAfterMove(s.threads, t, Idle);
    } else if |s.queue.items| < s.capacity {
      CountsAfterMove(s.threads, t, PushNotify);
    } else {
      CountsAfterMove(s.threads, t, PushParked);
    }
  }

  lemma PopSectionInv<T>(s: State<T>, e: Event<T>, t: nat)
    requires Inv(s) && e.PopSection? && Enabled(s, e) && t == e.t
    ensures Inv(Apply(s, e))
  {
    hide CountOf;
    if s.queue.items != [] {
      CountsAfterMove(s.threads, t, PopNotify);
    } else if s.queue.closed {
      CountsAfterMove(s.threads, t, Idle);
    } else {
      CountsAfterMove(s.threads, t, PopParked);
    }
  }

  /** A notification hands its cover over to the thread it wakes. */
  lemma NotifyInv<T>(s: State<T>, t: nat, woken: Option<nat>, parked: Phase, test: Phase)
    requires Inv(s) && WakesOne(s, parked, woken)
    requires (At(s, t, PushNotify) && parked == PopParked && test == PopTest)
          || (At(s, t, PopNotify) && parked == PushParked && test == PushTest)
    ensures Inv(Move(Wake(s, woken, test), t, Idle))
  {
    hide CountOf;
    if woken.Some? {
      CountsAfterMove(s.threads, woken.value, test);
    } else {
      PresentCount(s.threads, parked);
    }
    CountsAfterMove(Wake(s, woken, test).threads, t, Idle);
  }

  lemma {:induction false} ReplaceLength(threads: seq<Phase>, from: Phase, to: Phase)
    ensures |Replace(threads, from, to)| == |threads|
  {
    if threads != [] {
      ReplaceLength(threads[..|threads| - 1], from, to);
    }
  }

  lemma NotifyAllInv<T>(s: State<T>, t: nat, next: Phase, parked: Phase, test: Phase)
    requires Inv(s)
    requires (At(s, t, CloseNotifyFull) && next == CloseNotifyEmpty && parked == PushParked && test == PushTest)
          || (At(s, t, CloseNotifyEmpty) && next == Idle && parked == PopParked && test == PopTest)
    ensures var m := Move(s, t, next); Inv(m.(threads := Replace(m.threads, parked, test)))
  {
    hide CountOf, Replace;
    var threads := s.threads[t := next];
    CountsAfterMove(s.threads, t, next);
    forall q
      ensures CountOf(Replace(threads, parked, test), q) ==
                if q == parked then 0
                else if q == test then CountOf(threads, test) + CountOf(threads, parked)
                else CountOf(threads, q)
    {
      ReplaceCount(threads, parked, test, q);
    }
  }

  /** Every step keeps the invariant. */
  lemma StepInv<T>(s: State<T>, e: Event<T>)
    requires Inv(s) && Enabled(s, e)
    ensures Inv(Apply(s, e))
  {
    hide Inv;
    match e
    case CallPush(t) => MoveInv(s, t, PushTest);
    case CallPop(t) => MoveInv(s, t, PopTest);
    case CallShutdown(t) => ShutdownInv(s, t);
    case PushSection(t, _, _) => PushSectionInv(s, e, t);
    case PopSection(t, _) => PopSectionInv(s, e, t);
    case NotifyNotEmpty(t, woken) => NotifyInv(s, t, woken, PopParked, PopTest);
    case NotifyNotFull(t, woken) => NotifyInv(s, t, woken, PushParked, PushTest);
    case NotifyAllNotFull(t) => NotifyAllInv(s, t, CloseNotifyEmpty, PushParked, PushTest);
    case NotifyAllNotEmpty(t) => NotifyAllInv(s, t, Idle, PopParked, PopTest);
    case Spurious(t) => MoveInv(s, t, if s.threads[t] == PushParked then PushTest else PopTest);
  }

  /** In every reachable state the invariant holds. */
  lemma {:induction false} RunInv<T>(s: State<T>, es: seq<Event<T>>, s': State<T>)
    requires Inv(s) && Runs(s, es, s')
    ensures Inv(s')
    decreases |es|
  {
    if es != [] {
      StepInv(s, es[0]);
      RunInv(Apply(s, es[0]), es[1..], s');
    }
  }

  // ------------------------------------------------------------ what the callers see

  /** The item of a push answered with success. */
  ghost function PushOf<T>(e: Event<T>): seq<T> {
    if e.PushSection? && e.pushed.Pushed? then [e.item] else []
  }

  /** The item a pop hands out. */
  ghost function PopOf<T>(e: Event<T>): seq<T> {
    if e.PopSection? && e.popped.Popped? then [e.popped.item] else []
  }

  /** The items whose push was answered with success, in order. */
  ghost function PushedBy<T>(es: seq<Event<T>>): seq<T> {
    if es == [] then [] else PushOf(es[0]) + PushedBy(es[1..])
  }

  /** The items handed out by pops, in order. */
  ghost function PoppedBy<T>(es: seq<Event<T>>): seq<T> {
    if es == [] then [] else PopOf(es[0]) + PoppedBy(es[1..])
  }

  /** Somebody called `shutdown`. */
  ghost predicate ShutDown<T>(es: seq<Event<T>>) {
    exists i :: 0 <= i < |es| && es[i].CallShutdown?
  }

  lemma StepQueue<T>(s: State<T>, e: Event<T>)
    requires Enabled(s, e)
    ensures s.queue.items + PushOf(e) == PopOf(e) + Apply(s, e).queue.items
    ensures Apply(s, e).queue.closed <==> s.queue.closed || e.CallShutdown?
    ensures Apply(s, e).capacity == s.capacity
  {
    hide Replace;
  }

  lemma JoinQueue<T>(a: seq<T>, push: seq<T>, b: seq<T>, pop: seq<T>, pushes: seq<T>, c: seq<T>, pops: seq<T>)
    requires a + push == pop + b && b + pushes == pops + c
    ensures a + (push + pushes) == (pop + pops) + c
  {
    assert a + (push + pushes) == pop + b + pushes == pop + (b + pushes);
  }

  lemma ShutDownCons<T>(es: seq<Event<T>>)
    requires es != []
    ensures ShutDown(es) <==> es[0].CallShutdown? || ShutDown(es[1..])
  {
    if i :| 0 <= i < |es[1..]| && es[1..][i].CallShutdown? {
      assert es[i + 1].CallShutdown?;
    }
    if i :| 0 <= i < |es| && es[i].CallShutdown? && i > 0 {
      assert es[1..][i - 1].CallShutdown?;
    }
  }

  lemma {:induction false} RunQueue<T>(s: State<T>, es: seq<Event<T>>, s': State<T>)
    requires Runs(s, es, s')
    ensures s.queue.items + PushedBy(es) == PoppedBy(es) + s'.queue.items
    ensures s'.queue.closed <==> s.queue.closed || ShutDown(es)
    decreases |es|
  {
    hide Enabled, Apply, PushOf, PopOf, ShutDown;
    if es == [] {
      NoShutDown<T>();
    } else {
      var m, rest := Apply(s, es[0]), es[1..];
      StepQueue(s, es[0]);
      RunQueue(m, rest, s');
      ShutDownCons(es);
      JoinQueue(s.queue.items, PushOf(es[0]), m.queue.items, PopOf(es[0]), PushedBy(rest), s'.queue.items, PoppedBy(rest));
    }
  }

  lemma NoShutDown<T>()
    ensures !ShutDown<T>([])
  {
  }

  // ------------------------------------------------------------ what it means

  /**
   In every run of any number of threads: while a consumer waits, every queued item has a
   notification in flight or a consumer already awake for it; while a producer waits on the open
   queue, so has every free place; and after shutdown a waiting thread has a `notify_all` to come.
   */
  lemma WaitersAreCovered<T>(s0: State<T>, es: seq<Event<T>>, s: State<T>)
    requires Initial(s0) && Runs(s0, es, s)
    ensures PopParked in s.threads ==>
              |s.queue.items| <= CountOf(s.threads, PushNotify) + CountOf(s.threads, PopTest)
    ensures PushParked in s.threads && !ShutDown(es) ==>
              s.capacity - |s.queue.items| <= CountOf(s.threads, PopNotify) + CountOf(s.threads, PushTest)
    ensures ShutDown(es) && PushParked in s.threads ==> CloseNotifyFull in s.threads
    ensures ShutDown(es) && PopParked in s.threads ==> CloseNotifyFull in s.threads || CloseNotifyEmpty in s.threads
  {
    hide CountOf;
    InitialInv(s0);
    RunInv(s0, es, s);
    RunQueue(s0, es, s);
    PresentCount(s.threads, PopParked);
    PresentCount(s.threads, PushParked);
    PresentCount(s.threads, CloseNotifyFull);
    PresentCount(s.threads, CloseNotifyEmpty);
  }

  /** A thread that can take its next step without anybody else's help. */
  ghost predicate Active<T>(s: State<T>, t: nat) {
    t < |s.threads| && s.threads[t] != Idle && s.threads[t] != PushParked && s.threads[t] != PopParked
  }

  /**
   No lost wake-up: a waiting `pop` with items queued, a waiting `push` with space free, and any
   thread still waiting after shutdown, is always accompanied by an active thread.
   */
  lemma NoLostWakeUp<T>(s: State<T>)
    requires Inv(s)
    requires (PopParked in s.threads && (s.queue.items != [] || s.queue.closed))
          || (PushParked in s.threads && (|s.queue.items| < s.capacity || s.queue.closed))
    ensures exists t :: Active(s, t)
  {
    PresentCount(s.threads, PopParked);
    PresentCount(s.threads, PushParked);
    forall p | CountOf(s.threads, p) > 0 && p != Idle && p != PushParked && p != PopParked
      ensures exists t :: Active(s, t)
    {
      PresentCount(s.threads, p);
      var t :| 0 <= t < |s.threads| && s.threads[t] == p;
      assert Active(s, t);
    }
    hide CountOf;
  }

  /** Waiting is justified: consumers wait on an empty open queue, producers on a full open one, and not both. */
  ghost predicate WaitsJustified<T>(s: State<T>) {
    && (PopParked in s.threads ==> s.queue.items == [] && !s.queue.closed)
    && (PushParked in s.threads ==> |s.queue.items| == s.capacity && !s.queue.closed)
    && !(PopParked in s.threads && PushParked in s.threads)
  }

  lemma QuietIsJustified<T>(s: State<T>)
    requires Inv(s) && forall t :: !Active(s, t)
    ensures WaitsJustified(s)
  {
    if PopParked in s.threads && (s.queue.items != [] || s.queue.closed) {
      NoLostWakeUp(s);
    }
    if PushParked in s.threads && (|s.queue.items| < s.capacity || s.queue.closed) {
      NoLostWakeUp(s);
    }
  }

  // ------------------------------------------------------------ every wake-up arrives

  /** Steps other than new calls and spurious wake-ups. */
  ghost predicate IsCalm<T>(e: Event<T>) {
    !e.CallPush? && !e.CallPop? && !e.CallShutdown? && !e.Spurious?
  }

  ghost predicate AllCalm<T>(es: seq<Event<T>>) {
    forall i :: 0 <= i < |es| ==> IsCalm(es[i])
  }

  /** Calm steps a thread accounts for, among n threads, those of the threads it may wake included. */
  function Weight(p: Phase, n: nat): nat {
    match p
    case Idle => 0
    case PushTest => 3
    case PopTest => 3
    case PushParked => 2
    case PopParked => 2
    case PushNotify => 2
    case PopNotify => 2
    case CloseNotifyFull => 2 * n
    case CloseNotifyEmpty => n
  }

  function Potential(threads: seq<Phase>, n: nat): nat {
    if threads == [] then 0 else Potential(threads[..|threads| - 1], n) + Weight(threads[|threads| - 1], n)
  }

  lemma {:induction false} PotentialMove(threads: seq<Phase>, t: nat, p: Phase, n: nat)
    requires t < |threads|
    ensures Potential(threads[t := p], n) == Potential(threads, n) + Weight(p, n) - Weight(threads[t], n)
  {
    hide Weight;
    var last := |threads| - 1;
    if t == last {
      assert threads[t := p][..last] == threads[..last];
    } else {
      assert threads[t := p][..last] == threads[..last][t := p];
      PotentialMove(threads[..last], t, p, n);
    }
  }

  lemma {:induction false} PotentialReplace(threads: seq<Phase>, from: Phase, to: Phase, n: nat)
    requires Weight(to, n) == Weight(from, n) + 1
    ensures Potential(Replace(threads, from, to), n) == Potential(threads, n) + CountOf(threads, from)
  {
    hide Weight, CountOf;
    if threads == [] {
      EmptyCount();
    } else {
      var init, last := threads[..|threads| - 1], threads[|threads| - 1];
      PotentialReplace(init, from, to, n);
      assert threads == init + [last];
      CountSnoc(init, last, from);
      var r, x := Replace(init, from, to), if last == from then to else last;
      assert Replace(threads, from, to) == r + [x];
      assert (r + [x])[..|r|] == r;
    }
  }

  lemma {:induction false} CountBelow(threads: seq<Phase>, p: Phase)
    ensures CountOf(threads, p) <= |threads|
    ensures (exists t :: 0 <= t < |threads| && threads[t] != p) ==> CountOf(threads, p) < |threads|
  {
    hide CountOf;
    if threads == [] {
      EmptyCount();
    } else {
      var init, last := threads[..|threads| - 1], threads[|threads| - 1];
      CountBelow(init, p);
      assert threads == init + [last];
      CountSnoc(init, last, p);
      if t :| 0 <= t < |threads| && threads[t] != p && last == p {
        assert init[t] != p;
      }
    }
  }

  /** A `notify_all` pays for every thread it wakes. */
  lemma NotifyAllPotential(threads: seq<Phase>, t: nat, next: Phase, parked: Phase, test: Phase)
    requires t < |threads| && next != parked && Weight(test, |threads|) == Weight(parked, |threads|) + 1
    requires Weight(threads[t], |threads|) >= Weight(next, |threads|) + |threads|
    ensures Potential(Replace(threads[t := next], parked, test), |threads|) < Potential(threads, |threads|)
  {
    hide Weight, CountOf, Replace;
    var moved, n := threads[t := next], |threads|;
    PotentialMove(threads, t, next, n);
    PotentialReplace(moved, parked, test, n);
    assert moved[t] != parked;
    CountBelow(moved, parked);
  }

  lemma NotifyPotential<T>(s: State<T>, t: nat, woken: Option<nat>, parked: Phase, test: Phase)
    requires t < |s.threads| && WakesOne(s, parked, woken) && woken != Some(t)
    requires Weight(s.threads[t], |s.threads|) == 2 && Weight(parked, |s.threads|) == 2 && Weight(test, |s.threads|) == 3
    ensures Potential(Move(Wake(s, woken, test), t, Idle).threads, |s.threads|) < Potential(s.threads, |s.threads|)
  {
    hide Potential;
    if woken.Some? {
      PotentialMove(s.threads, woken.value, test, |s.threads|);
    }
    PotentialMove(Wake(s, woken, test).threads, t, Idle, |s.threads|);
  }

  /** Every calm step lowers the potential. */
  lemma CalmStepDecreases<T>(s: State<T>, e: Event<T>)
    requires Enabled(s, e) && IsCalm(e)
    ensures |Apply(s, e).threads| == |s.threads|
    ensures Potential(Apply(s, e).threads, |s.threads|) < Potential(s.threads, |s.threads|)
  {
    hide Potential, Replace;
    var n := |s.threads|;
    match e
    case PushSection(t, _, _) => PotentialMove(s.threads, t, Apply(s, e).threads[t], n);
    case PopSection(t, _) => PotentialMove(s.threads, t, Apply(s, e).threads[t], n);
    case NotifyNotEmpty(t, woken) => NotifyPotential(s, t, woken, PopParked, PopTest);
    case NotifyNotFull(t, woken) => NotifyPotential(s, t, woken, PushParked, PushTest);
    case NotifyAllNotFull(t) =>
      ReplaceLength(s.threads[t := CloseNotifyEmpty], PushParked, PushTest);
      NotifyAllPotential(s.threads, t, CloseNotifyEmpty, PushParked, PushTest);
    case NotifyAllNotEmpty(t) =>
      ReplaceLength(s.threads[t := Idle], PopParked, PopTest);
      NotifyAllPotential(s.threads, t, Idle, PopParked, PopTest);
  }

  lemma {:induction false} CalmRunBounded<T>(s: State<T>, es: seq<Event<T>>, s': State<T>)
    requires Runs(s, es, s') && AllCalm(es)
    ensures |s'.threads| == |s.threads|
    ensures |es| + Potential(s'.threads, |s.threads|) <= Potential(s.threads, |s.threads|)
    decreases |es|
  {
    hide Enabled, Apply, Potential;
    if es != [] {
      assert IsCalm(es[0]);
      CalmStepDecreases(s, es[0]);
      CalmRunBounded(Apply(s, es[0]), es[1..], s');
    }
  }

  /** As long as a thread is active, a calm step is possible. */
  lemma ActiveCanMove<T>(s: State<T>, t: nat, item: T) returns (e: Event<T>)
    requires Active(s, t)
    ensures IsCalm(e) && Enabled(s, e)
  {
    match s.threads[t]
    case PushTest => e := PushSection(t, item, s.queue.Push(s.capacity, item).0);
    case PopTest => e := PopSection(t, s.queue.Pop().0);
    case PushNotify =>
      var woken := Choose(s, PopParked);
      e := NotifyNotEmpty(t, woken);
    case PopNotify =>
      var woken := Choose(s, PushParked);
      e := NotifyNotFull(t, woken);
    case CloseNotifyFull => e := NotifyAllNotFull(t);
    case CloseNotifyEmpty => e := NotifyAllNotEmpty(t);
  }

  lemma Choose<T>(s: State<T>, parked: Phase) returns (woken: Option<nat>)
    ensures WakesOne(s, parked, woken)
  {
    if parked in s.threads {
      var w :| 0 <= w < |s.threads| && s.threads[w] == parked;
      woken := Some(w);
    } else {
      woken := None;
    }
  }

  /**
   Every wake-up arrives: from any state of any run of any number of threads, without new calls
   and spurious wake-ups, only a bounded number of steps is possible, and where no thread is
   active any more the remaining waits are justified. So a thread whose predicate stays true does
   not stay waiting.
   */
  lemma WaitersSettle<T>(s0: State<T>, es0: seq<Event<T>>, s: State<T>, es: seq<Event<T>>, s': State<T>)
    requires Initial(s0) && Runs(s0, es0, s)
    requires Runs(s, es, s') && AllCalm(es)
    ensures |es| <= Potential(s.threads, |s.threads|)
    ensures (forall t :: !Active(s', t)) ==> WaitsJustified(s')
  {
    hide Inv, WaitsJustified, Active, Potential;
    InitialInv(s0);
    RunInv(s0, es0, s);
    RunInv(s, es, s');
    CalmRunBounded(s, es, s');
    if forall t :: !Active(s', t) {
      QuietIsJustified(s');
    }
  }

  // ------------------------------------------------------------ order and shutdown

  /**
   First in, first out, without loss or duplication: what callers were told was pushed is what
   was handed out followed by what is queued; and never more than the capacity is queued.
   */
  lemma Fifo<T>(s0: State<T>, es: seq<Event<T>>, s: State<T>)
    requires Initial(s0) && Runs(s0, es, s)
    ensures PushedBy(es) == PoppedBy(es) + s.queue.items && |s.queue.items| <= s0.capacity
  {
    InitialInv(s0);
    RunInv(s0, es, s);
    RunQueue(s0, es, s);
    RunCapacity(s0, es, s);
    hide *;
    assert [] + PushedBy(es) == PushedBy(es);
  }

  lemma {:induction false} RunCapacity<T>(s: State<T>, es: seq<Event<T>>, s': State<T>)
    requires Runs(s, es, s')
    ensures s'.capacity == s.capacity
    decreases |es|
  {
    hide Enabled, Apply;
    if es != [] {
      StepQueue(s, es[0]);
      RunCapacity(Apply(s, es[0]), es[1..], s');
    }
  }

  lemma {:induction false} SplitRun<T>(s: State<T>, es: seq<Event<T>>, n: nat, s': State<T>) returns (m: State<T>)
    requires Runs(s, es, s') && n <= |es|
    ensures Runs(s, es[..n], m) && Runs(m, es[n..], s')
    decreases n
  {
    hide Enabled, Apply;
    if n == 0 {
      m := s;
      assert es[..0] == [] && es[0..] == es;
    } else {
      m := SplitRun(Apply(s, es[0]), es[1..], n - 1, s');
      assert es[1..][..n - 1] == es[..n][1..] && es[1..][n - 1..] == es[n..];
    }
  }

  lemma {:induction false} PushedSplit<T>(a: seq<Event<T>>, b: seq<Event<T>>)
    ensures PushedBy(a + b) == PushedBy(a) + PushedBy(b)
  {
    hide PushOf;
    if a == [] {
      assert a + b == b;
    } else {
      assert (a + b)[0] == a[0] && (a + b)[1..] == a[1..] + b;
      PushedSplit(a[1..], b);
    }
  }

  /** What a caller is told once `shutdown` has been called. */
  ghost predicate AnswersClosed<T>(e: Event<T>) {
    && (e.PushSection? ==> e.pushed.Refused?)
    && (e.PopSection? ==> !e.popped.MustWaitForItem?)
  }

  lemma {:induction false} ClosedPushesNothing<T>(s: State<T>, es: seq<Event<T>>, s': State<T>)
    requires s.queue.closed && Runs(s, es, s')
    ensures PushedBy(es) == []
    decreases |es|
  {
    hide Apply;
    if es != [] {
      StepQueue(s, es[0]);
      ClosedPushesNothing(Apply(s, es[0]), es[1..], s');
    }
  }

  /** At one event after the call: the answer, and what a report of drained means. */
  lemma ClosedAnswer<T>(s0: State<T>, es: seq<Event<T>>, s: State<T>, n: nat, i: nat)
    requires Initial(s0) && Runs(s0, es, s) && n < i < |es| && es[n].CallShutdown?
    ensures AnswersClosed(es[i])
    ensures es[i].PopSection? && es[i].popped.Drained? ==> PoppedBy(es[..i]) == PushedBy(es)
  {
    hide Apply;
    var m := SplitRun(s0, es, i, s);
    ShutDownAt(es[..i], n);
    RunQueue(s0, es[..i], m);
    assert m.queue.closed && Enabled(m, es[i..][0]);
    ClosedPushesNothing(m, es[i..], s);
    assert es == es[..i] + es[i..];
    PushedSplit(es[..i], es[i..]);
    hide Runs, Enabled, PushedBy, PoppedBy;
    assert [] + PushedBy(es[..i]) == PushedBy(es[..i]) && PushedBy(es[..i]) + [] == PushedBy(es[..i]);
  }

  /**
   From a call of `shutdown` on, in every run: every push is refused and no pop waits; a pop
   reports the queue drained only when everything ever pushed has been handed out; and what had
   been pushed by then has been handed out, in order, or is still queued.
   */
  lemma ClosedDrains<T>(s0: State<T>, es: seq<Event<T>>, s: State<T>, n: nat)
    requires Initial(s0) && Runs(s0, es, s) && n < |es| && es[n].CallShutdown?
    ensures forall i :: n < i < |es| ==> AnswersClosed(es[i])
    ensures forall i :: n < i < |es| && es[i].PopSection? && es[i].popped.Drained? ==> PoppedBy(es[..i]) == PushedBy(es)
    ensures PushedBy(es[..n]) == PushedBy(es) == PoppedBy(es) + s.queue.items
  {
    hide Enabled, Apply;
    forall i | n < i < |es|
      ensures AnswersClosed(es[i])
      ensures es[i].PopSection? && es[i].popped.Drained? ==> PoppedBy(es[..i]) == PushedBy(es)
    {
      ClosedAnswer(s0, es, s, n, i);
    }
    Fifo(s0, es, s);
    PushedBeforeOnly(s0, es, s, n);
  }

  lemma PushedBeforeOnly<T>(s0: State<T>, es: seq<Event<T>>, s: State<T>, n: nat)
    requires Runs(s0, es, s) && n < |es| && es[n].CallShutdown?
    ensures PushedBy(es[..n]) == PushedBy(es)
  {
    hide Enabled, Apply, Runs, PushedBy, ShutDown;
    var before, call, after := es[..n], [es[n]], es[n + 1..];
    var m := SplitRun(s0, es, n + 1, s);
    ShutDownAt(es[..n + 1], n);
    RunQueue(s0, es[..n + 1], m);
    ClosedPushesNothing(m, after, s);
    assert es == before + (call + after);
    PushedSplit(before, call + after);
    PushedSplit(call, after);
    CallPushesNothing(es[n]);
  }

  lemma ShutDownAt<T>(es: seq<Event<T>>, n: nat)
    requires n < |es| && es[n].CallShutdown?
    ensures ShutDown(es)
  {
  }

  lemma CallPushesNothing<T>(e: Event<T>)
    requires e.CallShutdown?
    ensures PushedBy([e]) == []
  {
    assert [e][1..] == [];
  }
}
