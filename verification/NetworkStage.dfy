/**
 The reconnecting network thread: `agg::runtime::NetworkStage` with its WebSocket client.

 The run loop, including one run of the client, and the separate actions of `stop()` interleave.
 Name lookup, connecting, handshakes, reads and pushes into the raw queue take as long as they
 take and end in any way; closing an open socket ends the operation blocked on it. Connecting
 tries the resolved endpoints one after the other, each with a socket opened anew.

 The model follows the code where its comments say more: a connection resets the backoff when it
 ends in the Read stage, whether or not a message was read; a reset also clears the policy's stop
 flag; and starting the client clears the client's.
 */
module NetworkStages {
  import opened Options
  import opened Decimals
  import opened Reconnect

  datatype ConnectionStage = Resolve | TcpConnect | TlsHandshake | WebSocketHandshake | Read

  /** The next action of the run loop, or the operation it is blocked in. */
  datatype Loop =
    | Head                       // test the stop flag
    | Creating                   // create the client
    | Starting                   // enter the client's run, which clears the client's stop flag
    | Resolving                  // in the name lookup
    | Testing(endpoints: nat)    // test the client's stop flag
    | Emplacing(endpoints: nat)  // create the stream
    | Opening(endpoints: nat)    // open a socket for the next endpoint
    | Connecting(others: nat)    // in the TCP connect, with this many endpoints left to try
    | Securing                   // in the TLS handshake
    | Upgrading                  // in the WebSocket handshake
    | Reading                    // in a read
    | Pushing                    // in the push of a message into the raw queue
    | Leaving(hadRead: bool)     // destroy the client
    | Checking(hadRead: bool)    // test the stop flag again
    | Resetting(hadRead: bool)   // reset the policy after a connection that was reading
    | Sleeping                   // wait out the backoff
    | Exited

  /** The next action of `stop()`; from `CloseStream` to the next it holds the client's mutex. */
  datatype Stopper = NotCalled | StopPolicy | StopClient | CloseStream | Joining | Returned

  /** The client: its stop flag, whether its stream exists and its socket is open, messages in its buffer. */
  datatype Client = Client(told: bool, stream: bool, open: bool, buffered: nat)

  datatype State = State(
    stop: bool,                  // the stage's atomic flag
    policy: Policy,
    client: Option<Client>,
    loop: Loop, stopper: Stopper)

  datatype Event =
    | TestHead | Create | Start
    | Resolved(endpoints: nat) | TestFlag | Emplace | Open | EndpointFails | Connected | Secured | Upgraded
    | Arrive | Message | Pushed | Fail(stage: ConnectionStage)
    | Destroy | TestAgain | Reset | WaitElapsed | WaitInterrupted
    | SetFlag | PolicyStop | ClientFlag | ClientClose | Join

  const INITIAL := State(false, Policy(0, false), None, Head, NotCalled)

  /** The stages in which the client's run can end with an error at this point. */
  predicate FailsAt(l: Loop, stage: ConnectionStage) {
    match l
    case Resolving => stage.Resolve?
    case Opening(_) => stage.TlsHandshake?
    case Connecting(others) => stage.TcpConnect? && others == 0
    case Securing => stage.TlsHandshake?
    case Upgrading => stage.WebSocketHandshake?
    case Reading => stage.Read?
    case _ => false
  }

  predicate SocketOpen(s: State) {
    s.client.Some? && s.client.value.open
  }

  predicate Enabled(s: State, e: Event) {
    match e
    case TestHead => s.loop.Head?
    case Create => s.loop.Creating? && !s.stopper.CloseStream?
    case Start => s.loop.Starting? && s.client.Some?
    case Resolved(endpoints) => s.loop.Resolving? && endpoints >= 1
    case TestFlag => s.loop.Testing? && s.client.Some?
    case Emplace => s.loop.Emplacing? && s.client.Some?
    case Open => s.loop.Opening? && s.client.Some? && s.loop.endpoints >= 1
    case EndpointFails => s.loop.Connecting? && s.client.Some? && s.loop.others >= 1
    case Connected => s.loop.Connecting? && SocketOpen(s)
    case Secured => s.loop.Securing? && SocketOpen(s)
    case Upgraded => s.loop.Upgrading? && SocketOpen(s)
    case Arrive => s.loop.Reading? && SocketOpen(s)
    case Message => s.loop.Reading? && s.client.Some? && s.client.value.buffered > 0
    case Pushed => s.loop.Pushing?
    case Fail(stage) => FailsAt(s.loop, stage)
    case Destroy => s.loop.Leaving? && !s.stopper.CloseStream?
    case TestAgain => s.loop.Checking?
    case Reset => s.loop.Resetting?
    case WaitElapsed => s.loop.Sleeping? && !s.policy.stopRequested
    case WaitInterrupted => s.loop.Sleeping? && s.policy.stopRequested
    case SetFlag => s.stopper.NotCalled?
    case PolicyStop => s.stopper.StopPolicy?
    case ClientFlag => s.stopper.StopClient?
    case ClientClose => s.stopper.CloseStream? && s.client.Some?
    case Join => s.stopper.Joining? && s.loop.Exited?
  }

  function With(s: State, c: Client, l: Loop): State {
    s.(client := Some(c), loop := l)
  }

  function Apply(s: State, e: Event): State
    requires Enabled(s, e)
  {
    match e
    case TestHead => s.(loop := if s.stop then Exited else Creating)
    case Create => With(s, Client(false, false, false, 0), Starting)
    case Start => With(s, s.client.value.(told := false), Resolving)
    case Resolved(endpoints) => s.(loop := Testing(endpoints))
    case TestFlag => s.(loop := if s.client.value.told then Leaving(false) else Emplacing(s.loop.endpoints))
    case Emplace => With(s, s.client.value.(stream := true), Opening(s.loop.endpoints))
    case Open => With(s, s.client.value.(open := true), Connecting(s.loop.endpoints - 1))
    case EndpointFails => With(s, s.client.value.(open := false), Opening(s.loop.others))
    case Connected => s.(loop := Securing)
    case Secured => s.(loop := Upgrading)
    case Upgraded => s.(loop := Reading)
    case Arrive => With(s, s.client.value.(buffered := s.client.value.buffered + 1), Reading)
    case Message => With(s, s.client.value.(buffered := s.client.value.buffered - 1), Pushing)
    case Pushed => s.(loop := Reading)
    case Fail(stage) => s.(loop := Leaving(stage.Read?))
    case Destroy => s.(client := None, loop := Checking(s.loop.hadRead))
    case TestAgain => s.(loop := if s.stop then Exited else Resetting(s.loop.hadRead))
    case Reset => s.(policy := if s.loop.hadRead then s.policy.Restarted() else s.policy, loop := Sleeping)
    case WaitElapsed => s.(policy := s.policy.Waited(), loop := Head)
    case WaitInterrupted => s.(policy := s.policy.Waited(), loop := Exited)
    case SetFlag => s.(stop := true, stopper := StopPolicy)
    case PolicyStop => s.(policy := s.policy.Stopped(), stopper := StopClient)
    case ClientFlag =>
      if s.client.None? then s.(stopper := Joining)
      else s.(client := Some(s.client.value.(told := true)), stopper := CloseStream)
    case ClientClose =>
      var c := s.client.value;
      s.(client := Some(if c.stream then c.(open := false) else c), stopper := Joining)
    case Join => s.(stopper := Returned)
  }

  ghost predicate Runs(s: State, es: seq<Event>, s': State)
    decreases |es|
  {
    if es == [] then s == s' else Enabled(s, es[0]) && Runs(Apply(s, es[0]), es[1..], s')
  }

  /** Some run leads from one state to the other. */
  ghost predicate Leads(s: State, s': State) {
    exists es :: Runs(s, es, s')
  }

  ghost predicate Reachable(s: State) {
    Leads(INITIAL, s)
  }

  // ------------------------------------------------------------ the invariant

  /** Before the stream exists. */
  predicate BeforeStream(l: Loop) {
    l.Starting? || l.Resolving? || l.Testing? || l.Emplacing?
  }

  /** With a socket that was opened. */
  predicate WithSocket(l: Loop) {
    l.Connecting? || l.Securing? || l.Upgrading? || l.Reading? || l.Pushing?
  }

  predicate ClientTracked(s: State) {
    && (s.client.Some? <==> BeforeStream(s.loop) || s.loop.Opening? || WithSocket(s.loop) || s.loop.Leaving?)
    && (s.stopper.CloseStream? ==> s.client.Some?)
    && (BeforeStream(s.loop) ==> !s.client.value.stream && !s.client.value.open)
    && (s.loop.Opening? ==> s.client.value.stream && !s.client.value.open)
    && (WithSocket(s.loop) ==> s.client.value.stream)
    && (s.loop.Testing? || s.loop.Emplacing? || s.loop.Opening? ==> s.loop.endpoints >= 1)
  }

  /** The client is told to stop, and its socket closed, by nobody but `stop()`. */
  predicate Undisturbed(s: State) {
    s.stopper.NotCalled? || s.stopper.StopPolicy? || s.stopper.StopClient? ==>
      && (s.client.Some? ==> !s.client.value.told)
      && (WithSocket(s.loop) ==> SocketOpen(s))
  }

  predicate FlagTracked(s: State) {
    s.stopper.NotCalled? <==> !s.stop
  }

  predicate Inv(s: State) {
    ClientTracked(s) && Undisturbed(s) && FlagTracked(s)
  }

  predicate IsRequest(e: Event) {
    e.SetFlag? || e.PolicyStop? || e.ClientFlag? || e.ClientClose? || e.Join?
  }

  lemma RequestTracked(s: State, e: Event)
    requires ClientTracked(s) && Undisturbed(s) && Enabled(s, e) && IsRequest(e)
    ensures ClientTracked(Apply(s, e)) && Undisturbed(Apply(s, e))
  {
  }

  lemma LoopTracked(s: State, e: Event)
    requires ClientTracked(s) && Enabled(s, e) && !IsRequest(e)
    ensures ClientTracked(Apply(s, e))
  {
  }

  lemma LoopUndisturbed(s: State, e: Event)
    requires ClientTracked(s) && Undisturbed(s) && Enabled(s, e) && !IsRequest(e)
    ensures Undisturbed(Apply(s, e))
  {
  }

  lemma StepFlag(s: State, e: Event)
    requires FlagTracked(s) && Enabled(s, e)
    ensures FlagTracked(Apply(s, e))
  {
  }

  lemma StepInv(s: State, e: Event)
    requires Inv(s) && Enabled(s, e)
    ensures Inv(Apply(s, e))
  {
    hide Apply, Enabled, ClientTracked, Undisturbed, FlagTracked;
    if IsRequest(e) {
      RequestTracked(s, e);
    } else {
      LoopTracked(s, e);
      LoopUndisturbed(s, e);
    }
    StepFlag(s, e);
  }

  lemma {:induction false} RunInv(s: State, es: seq<Event>, s': State)
    requires Inv(s) && Runs(s, es, s')
    ensures Inv(s')
    decreases |es|
  {
    hide Inv, Enabled, Apply;
    if es != [] {
      StepInv(s, es[0]);
      RunInv(Apply(s, es[0]), es[1..], s');
    }
  }

  lemma ReachableInv(s: State)
    requires Reachable(s)
    ensures Inv(s)
  {
    var es :| Runs(INITIAL, es, s);
    RunInv(INITIAL, es, s);
  }

  // ------------------------------------------------------------ connecting after stop

  /** The clients created in a run. */
  ghost function Creations(es: seq<Event>): nat {
    if es == [] then 0 else (if es[0].Create? then 1 else 0) + Creations(es[1..])
  }

  lemma {:induction false} StoppedCreations(s: State, es: seq<Event>, s': State)
    requires s.stop && Runs(s, es, s')
    ensures Creations(es) <= if s.loop.Creating? then 1 else 0
    decreases |es|
  {
    if es != [] {
      StoppedCreations(Apply(s, es[0]), es[1..], s');
    }
  }

  /**
   In every interleaving, including a reset that erases the policy's stop flag, at most one client
   is created after the stop flag is set, and that one only, and possibly, if the flag was set
   between the loop's test and the creation.
   */
  lemma NoResumedConnecting(s: State, es: seq<Event>, s': State)
    requires s.stopper.NotCalled? && Runs(Apply(s, SetFlag), es, s')
    ensures Creations(es) <= if s.loop.Creating? then 1 else 0
    ensures s.loop.Creating? ==> Enabled(Apply(s, SetFlag), Create)
  {
    StoppedCreations(Apply(s, SetFlag), es, s');
  }

  // ------------------------------------------------------------ delays

  /** The waits that elapsed since the last connection that ended in the Read stage. */
  ghost function WaitsSinceRead(es: seq<Event>): nat {
    if es == [] then 0
    else if es[|es| - 1] == Fail(Read) then 0
    else (if es[|es| - 1].WaitElapsed? then 1 else 0) + WaitsSinceRead(es[..|es| - 1])
  }

  predicate HadRead(l: Loop) {
    match l
    case Leaving(r) => r
    case Checking(r) => r
    case Resetting(r) => r
    case _ => false
  }

  /** The policy counts the waits since the last reading connection, modulo the counter's width. */
  predicate AttemptCounts(s: State, waits: nat) {
    if HadRead(s.loop) then waits == 0 else s.loop.Exited? || s.policy.attempt == waits % TWO32
  }

  lemma WrappedCount(n: nat)
    ensures (n % TWO32 + 1) % TWO32 == (n + 1) % TWO32
  {
  }

  lemma StepAttempt(s: State, e: Event, waits: nat)
    requires AttemptCounts(s, waits) && Enabled(s, e)
    ensures AttemptCounts(Apply(s, e), if e == Fail(Read) then 0 else if e.WaitElapsed? then 1 + waits else waits)
  {
    if e.WaitElapsed? {
      WrappedCount(waits);
    }
  }

  lemma {:induction false} LastStep(s: State, es: seq<Event>, s': State) returns (m: State)
    requires Runs(s, es, s') && es != []
    ensures Runs(s, es[..|es| - 1], m) && Enabled(m, es[|es| - 1]) && s' == Apply(m, es[|es| - 1])
    decreases |es|
  {
    hide Enabled, Apply;
    if |es| == 1 {
      m := s;
      assert es[..0] == [] && es[1..] == [];
    } else {
      m := LastStep(Apply(s, es[0]), es[1..], s');
      assert es[1..][..|es| - 2] == es[..|es| - 1][1..];
    }
  }

  lemma {:induction false} RunAttempt(es: seq<Event>, s: State)
    requires Runs(INITIAL, es, s)
    ensures AttemptCounts(s, WaitsSinceRead(es))
    decreases |es|
  {
    hide Enabled, Apply, AttemptCounts;
    if es == [] {
      InitialAttempt();
    } else {
      var m := LastStep(INITIAL, es, s);
      RunAttempt(es[..|es| - 1], m);
      StepAttempt(m, es[|es| - 1], WaitsSinceRead(es[..|es| - 1]));
    }
  }

  lemma InitialAttempt()
    ensures AttemptCounts(INITIAL, 0)
  {
  }

  /**
   In every run, the delay before the next attempt is min(initial * 2^k, max) exactly if that is
   below 2^63, where k is the number of waits that elapsed since the last connection that ended in
   the Read stage, modulo the width of the counter.
   */
  lemma DelayFormula(es: seq<Event>, s: State, initial: nat, max: nat)
    requires Runs(INITIAL, es, s) && s.loop.Sleeping? && max < TWO64
    ensures var promised := MinNat(initial * Pow2(WaitsSinceRead(es) % TWO32), max);
            BaseDelay(initial, max, s.policy.attempt) == promised <==> promised < TWO63
  {
    RunAttempt(es, s);
    DelayIff(initial, max, s.policy.attempt);
    GrownIsProduct(initial, s.policy.attempt);
  }

  // ------------------------------------------------------------ the stages of a connection

  /** The stages completed since the client's run was last entered. */
  ghost function Completed(es: seq<Event>): seq<ConnectionStage> {
    if es == [] then [] else
      match es[|es| - 1]
      case Start => []
      case Resolved(_) => Completed(es[..|es| - 1]) + [Resolve]
      case Connected => Completed(es[..|es| - 1]) + [TcpConnect]
      case Secured => Completed(es[..|es| - 1]) + [TlsHandshake]
      case Upgraded => Completed(es[..|es| - 1]) + [WebSocketHandshake]
      case _ => Completed(es[..|es| - 1])
  }

  /** What has been completed at a point of the client's run. */
  ghost predicate CompletedAt(l: Loop, done: seq<ConnectionStage>) {
    match l
    case Resolving => done == []
    case Testing(_) => done == [Resolve]
    case Emplacing(_) => done == [Resolve]
    case Opening(_) => done == [Resolve]
    case Connecting(_) => done == [Resolve]
    case Securing => done == [Resolve, TcpConnect]
    case Upgrading => done == [Resolve, TcpConnect, TlsHandshake]
    case Reading => done == [Resolve, TcpConnect, TlsHandshake, WebSocketHandshake]
    case Pushing => done == [Resolve, TcpConnect, TlsHandshake, WebSocketHandshake]
    case _ => true
  }

  lemma StepCompleted(s: State, e: Event, es: seq<Event>)
    requires Enabled(s, e) && CompletedAt(s.loop, Completed(es))
    ensures CompletedAt(Apply(s, e).loop, Completed(es + [e]))
  {
    assert (es + [e])[..|es|] == es;
  }

  lemma {:induction false} RunCompleted(es: seq<Event>, s: State)
    requires Runs(INITIAL, es, s)
    ensures CompletedAt(s.loop, Completed(es))
    decreases |es|
  {
    hide Enabled, Apply, Completed;
    if es != [] {
      var init, e := es[..|es| - 1], es[|es| - 1];
      var m := LastStep(INITIAL, es, s);
      RunCompleted(init, m);
      StepCompleted(m, e, init);
      assert es == init + [e];
    }
  }

  /**
   In every run the stages of a connection follow each other: a message is read, and with it a
   connection counts as one that was reading, only after lookup, connect and both handshakes, each
   once and in this order; and an error is reported for the stage that follows those completed,
   but for one case: the host name may fail to be set for TLS before the connect.
   */
  lemma StagesInOrder(es: seq<Event>, s: State, e: Event)
    requires Runs(INITIAL, es, s) && Enabled(s, e)
    ensures e.Message? || e == Fail(Read) ==> Completed(es) == [Resolve, TcpConnect, TlsHandshake, WebSocketHandshake]
    ensures e == Fail(WebSocketHandshake) ==> Completed(es) == [Resolve, TcpConnect, TlsHandshake]
    ensures e == Fail(TlsHandshake) ==> Completed(es) == [Resolve, TcpConnect] || Completed(es) == [Resolve]
    ensures e == Fail(TcpConnect) ==> Completed(es) == [Resolve]
    ensures e == Fail(Resolve) ==> Completed(es) == []
  {
    hide Completed;
    RunCompleted(es, s);
  }

  // ------------------------------------------------------------ is a stop request noticed?

  /**
   Lost: `stop()` has made all its requests and waits for the loop, while the loop works on an
   open socket or waits out a backoff, with nobody left to interrupt it.
   */
  predicate Lost(s: State) {
    && s.stopper.Joining?
    && ((WithSocket(s.loop) && SocketOpen(s)) || (s.loop.Sleeping? && !s.policy.stopRequested))
  }

  /** Held up: the loop is in a name lookup or a push, neither of which any request interrupts. */
  predicate HeldUp(s: State) {
    s.stopper.Joining? && (s.loop.Resolving? || s.loop.Pushing?)
  }

  ghost predicate NeverLost(s: State) {
    forall s' :: Leads(s, s') ==> !Lost(s')
  }

  ghost predicate NeverWaits(s: State) {
    forall s' :: Leads(s, s') ==> !Lost(s') && !HeldUp(s')
  }

  /** Points outside the client at which a stop request is certain to be noticed. */
  predicate SafeOutside(l: Loop) {
    l.Head? || l.Leaving? || l.Checking? || l == Resetting(false) || l.Sleeping? || l.Exited?
  }

  /** Points inside the client's run at which it is: the last socket is open. */
  predicate SafeInside(l: Loop) {
    l == Connecting(0) || l.Securing? || l.Upgrading? || l.Reading? || l.Pushing?
  }

  /** What holds from a stop request at a safe point on. */
  predicate Noticed(s: State) {
    && Inv(s) && s.stop && (SafeOutside(s.loop) || SafeInside(s.loop))
    && (!s.stopper.StopPolicy? ==> s.policy.stopRequested)
    && (s.stopper.Joining? || s.stopper.Returned? ==> !SocketOpen(s) || s.loop.Leaving?)
    && (s.stopper.Returned? ==> s.loop.Exited?)
  }

  lemma NoticedStep(s: State, e: Event)
    requires Noticed(s) && Enabled(s, e)
    ensures Noticed(Apply(s, e))
    ensures SafeOutside(s.loop) ==> SafeOutside(Apply(s, e).loop)
  {
    StepInv(s, e);
  }

  lemma {:induction false} NoticedRun(s: State, es: seq<Event>, s': State)
    requires Noticed(s) && Runs(s, es, s')
    ensures Noticed(s')
    ensures SafeOutside(s.loop) ==> SafeOutside(s'.loop)
    decreases |es|
  {
    hide Noticed, SafeOutside, Enabled, Apply;
    if es != [] {
      NoticedStep(s, es[0]);
      NoticedRun(Apply(s, es[0]), es[1..], s');
    }
  }

  lemma NoticedFrom(s: State, s': State)
    requires Inv(s) && s.stopper.NotCalled? && (SafeOutside(s.loop) || SafeInside(s.loop))
    requires Leads(Apply(s, SetFlag), s')
    ensures Noticed(s')
    ensures SafeOutside(s.loop) ==> SafeOutside(s'.loop)
  {
    var a := Apply(s, SetFlag);
    StepInv(s, SetFlag);
    var es :| Runs(a, es, s');
    NoticedRun(a, es, s');
  }

  // ------------------------------------------------------------ the interleavings that lose it

  lemma {:induction false} RunsSnoc(s: State, es: seq<Event>, s': State, e: Event)
    requires Runs(s, es, s') && Enabled(s', e)
    ensures Runs(s, es + [e], Apply(s', e))
    decreases |es|
  {
    hide Enabled, Apply;
    if es == [] {
      assert es + [e] == [e];
      assert [e][1..] == [];
    } else {
      assert (es + [e])[0] == es[0] && (es + [e])[1..] == es[1..] + [e];
      RunsSnoc(Apply(s, es[0]), es[1..], s', e);
    }
  }

  /** One more step of a run. */
  lemma Then(a: State, s: State, e: Event) returns (s': State)
    requires Leads(a, s) && Enabled(s, e)
    ensures Leads(a, s') && s' == Apply(s, e)
  {
    hide Enabled, Apply;
    s' := Apply(s, e);
    var es :| Runs(a, es, s);
    RunsSnoc(a, es, s, e);
  }

  lemma Here(a: State)
    ensures Leads(a, a)
  {
    assert Runs(a, [], a);
  }

  /** The remaining requests of `stop()`, in a row. */
  lemma Requests(a: State, s: State) returns (s': State)
    requires Leads(a, s) && s.stopper.StopPolicy?
    ensures Leads(a, s') && s'.stopper.Joining? && s'.loop == s.loop && s'.policy == s.policy.Stopped()
    ensures s.client.None? ==> s'.client.None?
    ensures s.client.Some? ==>
              var c := s.client.value; s'.client == Some(c.(told := true, open := c.open && !c.stream))
  {
    hide Leads;
    s' := Then(a, s, PolicyStop);
    s' := Then(a, s', ClientFlag);
    if s.client.Some? {
      s' := Then(a, s', ClientClose);
    }
  }

  /** Until the stream exists the loop passes all tests as long as the client has not been told. */
  lemma ToEmplacing(a: State, s: State) returns (s': State)
    requires Leads(a, s) && Inv(s) && s.stopper.StopPolicy? && (s.loop.Creating? || BeforeStream(s.loop))
    ensures Leads(a, s') && Inv(s') && s'.stopper.StopPolicy? && s'.loop.Emplacing?
  {
    hide Leads;
    s' := s;
    if s'.loop.Creating? {
      StepInv(s', Create);
      s' := Then(a, s', Create);
    }
    if s'.loop.Starting? {
      StepInv(s', Start);
      s' := Then(a, s', Start);
    }
    if s'.loop.Resolving? {
      StepInv(s', Resolved(1));
      s' := Then(a, s', Resolved(1));
    }
    if s'.loop.Testing? {
      StepInv(s', TestFlag);
      s' := Then(a, s', TestFlag);
    }
  }

  /** With no socket open yet, the requests are made and the loop goes on to open one. */
  lemma OpensAfterwards(a: State, s: State) returns (s': State)
    requires Leads(a, s) && Inv(s) && s.stopper.StopPolicy? && (s.loop.Emplacing? || s.loop.Opening?)
    ensures Leads(a, s') && Lost(s')
  {
    hide Leads;
    s' := Requests(a, s);
    if s'.loop.Emplacing? {
      s' := Then(a, s', Emplace);
    }
    s' := Then(a, s', Open);
  }

  /** The socket is closed, and the next endpoint tried with another one. */
  lemma NextEndpoint(a: State, s: State) returns (s': State)
    requires Leads(a, s) && Inv(s) && s.stopper.StopPolicy? && s.loop.Connecting? && s.loop.others > 0
    ensures Leads(a, s') && Lost(s')
  {
    hide Leads;
    s' := Requests(a, s);
    s' := Then(a, s', EndpointFails);
    s' := Then(a, s', Open);
  }

  /** The reset erases the request before the wait begins. */
  lemma ResetErases(a: State, s: State) returns (s': State)
    requires Leads(a, s) && s.stopper.StopPolicy? && s.loop == Resetting(true)
    ensures Leads(a, s') && Lost(s')
  {
    hide Leads;
    s' := Requests(a, s);
    s' := Then(a, s', Reset);
  }

  /** For every other point, an interleaving in which the stop request is lost. */
  lemma LostStop(s: State) returns (s': State)
    requires Inv(s) && s.stopper.NotCalled? && !SafeOutside(s.loop) && !SafeInside(s.loop)
    ensures Leads(Apply(s, SetFlag), s') && Lost(s')
  {
    var a := Apply(s, SetFlag);
    StepInv(s, SetFlag);
    Here(a);
    hide Leads, Lost, Inv;
    if s.loop.Creating? || BeforeStream(s.loop) {
      s' := ToEmplacing(a, a);
      s' := OpensAfterwards(a, s');
    } else if s.loop.Opening? {
      s' := OpensAfterwards(a, a);
    } else if s.loop.Connecting? {
      s' := NextEndpoint(a, a);
    } else {
      s' := ResetErases(a, a);
    }
  }

  /** With the last socket open the connection can come to the point of reading. */
  lemma ToReading(a: State, s: State) returns (s': State)
    requires Leads(a, s) && SafeInside(s.loop) && !s.loop.Pushing? && SocketOpen(s)
    ensures Leads(a, s') && s' == s.(loop := Reading)
  {
    hide Leads;
    s' := s;
    if s'.loop.Connecting? {
      s' := Then(a, s', Connected);
    }
    if s'.loop.Securing? {
      s' := Then(a, s', Secured);
    }
    if s'.loop.Upgrading? {
      s' := Then(a, s', Upgraded);
    }
  }

  /** From every safe point inside the client, an interleaving in which `stop()` waits for a push. */
  lemma HeldUpByPush(s: State) returns (s': State)
    requires Inv(s) && s.stopper.NotCalled? && SafeInside(s.loop)
    ensures Leads(Apply(s, SetFlag), s') && HeldUp(s')
  {
    hide Leads;
    var a := Apply(s, SetFlag);
    Here(a);
    s' := a;
    if !s'.loop.Pushing? {
      s' := ToReading(a, s');
      s' := Then(a, s', Arrive);
      s' := Then(a, s', Message);
    }
    s' := Requests(a, s');
  }

  /**
   A call of `stop()` is never lost, in any interleaving, if and only if at the moment of the call
   the loop is at a safe point: outside the client but neither creating one nor about to reset the
   policy, or inside it with the last socket open.
   */
  lemma StopNoticedIff(s: State)
    requires Reachable(s) && s.stopper.NotCalled?
    ensures NeverLost(Apply(s, SetFlag)) <==> SafeOutside(s.loop) || SafeInside(s.loop)
  {
    ReachableInv(s);
    var a := Apply(s, SetFlag);
    if SafeOutside(s.loop) || SafeInside(s.loop) {
      forall s' | Leads(a, s')
        ensures !Lost(s')
      {
        NoticedFrom(s, s');
      }
    } else {
      var s' := LostStop(s);
    }
  }

  /** It never even waits for a lookup or a push if and only if the point is a safe one outside the client. */
  lemma StopPromptIff(s: State)
    requires Reachable(s) && s.stopper.NotCalled?
    ensures NeverWaits(Apply(s, SetFlag)) <==> SafeOutside(s.loop)
  {
    ReachableInv(s);
    var a := Apply(s, SetFlag);
    if SafeOutside(s.loop) {
      forall s' | Leads(a, s')
        ensures !Lost(s') && !HeldUp(s')
      {
        NoticedFrom(s, s');
      }
    } else if SafeInside(s.loop) {
      var s' := HeldUpByPush(s);
    } else {
      var s' := LostStop(s);
    }
  }

  // ------------------------------------------------------------ what follows from it

  /** Steps until `stop()` returns, once the request is noticed. */
  function StepsLeft(s: State): nat {
    if s.stopper.Returned? then 0 else
      match s.loop
      case Exited => 1
      case Head => 2
      case Sleeping => 2
      case Checking(_) => 2
      case Resetting(_) => 3
      case Leaving(_) => 3
      case Reading => if s.client.Some? then 4 + 2 * s.client.value.buffered else 4
      case Pushing => if s.client.Some? then 5 + 2 * s.client.value.buffered else 5
      case _ => 4
  }

  lemma NoticedStepDecreases(s: State, e: Event)
    requires Noticed(s) && s.stopper.Joining? && Enabled(s, e)
    ensures StepsLeft(Apply(s, e)) < StepsLeft(s)
  {
  }

  lemma NoticedGoesOn(s: State) returns (e: Event)
    requires Noticed(s) && s.stopper.Joining?
    ensures Enabled(s, e)
  {
    e := match s.loop
      case Head => TestHead
      case Connecting(_) => Fail(TcpConnect)
      case Securing => Fail(TlsHandshake)
      case Upgrading => Fail(WebSocketHandshake)
      case Reading => Fail(Read)
      case Pushing => Pushed
      case Leaving(_) => Destroy
      case Checking(_) => TestAgain
      case Resetting(_) => Reset
      case Sleeping => WaitInterrupted
      case _ => Join;
  }

  lemma {:induction false} NoticedTerminates(s: State, es: seq<Event>, s': State)
    requires Noticed(s) && (s.stopper.Joining? || s.stopper.Returned?) && Runs(s, es, s')
    ensures |es| + StepsLeft(s') <= StepsLeft(s)
    ensures (forall e :: !Enabled(s', e)) ==> s'.stopper.Returned?
    decreases |es|
  {
    hide Noticed, StepsLeft;
    if es == [] {
      if s.stopper.Joining? {
        var e := NoticedGoesOn(s);
      }
    } else if s.stopper.Joining? {
      NoticedStep(s, es[0]);
      NoticedStepDecreases(s, es[0]);
      NoticedTerminates(Apply(s, es[0]), es[1..], s');
    } else {
      ReturnedIsOver(s, es[0]);
    }
  }

  lemma ReturnedIsOver(s: State, e: Event)
    requires Noticed(s) && s.stopper.Returned?
    ensures !Enabled(s, e)
  {
  }

  /**
   After a stop request at a safe point, once all requests are made, any run whatsoever has at
   most `StepsLeft` steps, and where no further step is possible `stop()` has returned.
   */
  lemma NoticedStopReturns(s: State, m: State, es: seq<Event>, s': State)
    requires Reachable(s) && s.stopper.NotCalled? && (SafeOutside(s.loop) || SafeInside(s.loop))
    requires Leads(Apply(s, SetFlag), m) && m.stopper.Joining? && Runs(m, es, s')
    ensures |es| + StepsLeft(s') <= StepsLeft(m)
    ensures (forall e :: !Enabled(s', e)) ==> s'.stopper.Returned?
  {
    ReachableInv(s);
    NoticedFrom(s, m);
    NoticedTerminates(m, es, s');
  }

  /** Reading one more message and pushing it comes back to the same state. */
  lemma {:induction false} ReadsOn(s: State, n: nat) returns (es: seq<Event>)
    requires s.loop.Reading? && SocketOpen(s)
    ensures |es| == 3 * n && Runs(s, es, s)
  {
    es := [];
    if n > 0 {
      var rest := ReadsOn(s, n - 1);
      es := [Arrive] + ([Message] + ([Pushed] + rest));
      var a := Apply(s, Arrive);
      var b := Apply(a, Message);
      assert Apply(b, Pushed) == s;
      assert ([Pushed] + rest)[1..] == rest;
      assert Runs(b, [Pushed] + rest, s);
      assert ([Message] + ([Pushed] + rest))[1..] == [Pushed] + rest;
      assert Runs(a, [Message] + ([Pushed] + rest), s);
      assert es[1..] == [Message] + ([Pushed] + rest);
    }
  }

  /** A stop request lost to an open socket can stay lost for ever: `stop()` does not return. */
  lemma LostRunsOn(s: State, n: nat) returns (es: seq<Event>, s': State)
    requires Lost(s) && WithSocket(s.loop)
    ensures |es| >= n && Runs(s, es, s') && Lost(s')
    decreases if s.loop.Connecting? then 3 else if s.loop.Securing? then 2 else if s.loop.Reading? then 0 else 1
  {
    if s.loop.Reading? {
      es := ReadsOn(s, n);
      s' := s;
    } else {
      var e := if s.loop.Connecting? then Connected else if s.loop.Securing? then Secured
               else if s.loop.Upgrading? then Upgraded else Pushed;
      var rest;
      rest, s' := LostRunsOn(Apply(s, e), n);
      es := [e] + rest;
      assert es[1..] == rest;
    }
  }
}
