/** The connector: sockets it opens, the channel it watches them with, and its retries, driven by an event loop whose
    iterations dispatch events and then run queued functors. */
module Connector {
  import opened Wrappers
  import TimerClock

  const INIT_RETRY_DELAY_MS := 500
  const MAX_RETRY_DELAY_MS := 30_000

  datatype ConnectState = Disconnected | Connecting | Connected

  /** How often a socket was closed, and how often it was handed to the new connection callback. */
  datatype Fate = Fate(closes: nat, handed: nat)

  /** A channel on socket fd; registered while the loop watches it. */
  datatype Chan = Chan(fd: nat, registered: bool)

  datatype Functor = StartInLoop | StopInLoop | ResetChannel

  /** What the connect call reports: under way, worth another try, or hopeless. */
  datatype Outcome = UnderWay | TryAgain | Hopeless

  /** The connector's fields, with the ledger of all sockets it ever opened, the functors it has queued in its loop, and
      the number of retry timers it has set. The fd of a socket is its place in the ledger. */
  datatype Core = Core(
    connect: bool, state: ConnectState, channel: Option<Chan>, retryDelayMs: int,
    socks: seq<Fate>, queued: seq<Functor>, retries: nat)

  function Closed(c: Core, fd: nat): Core
    requires fd < |c.socks|
  {
    c.(socks := c.socks[fd := c.socks[fd].(closes := c.socks[fd].closes + 1)])
  }

  function HandedOver(c: Core, fd: nat): Core
    requires fd < |c.socks|
  {
    c.(socks := c.socks[fd := c.socks[fd].(handed := c.socks[fd].handed + 1)])
  }

  function Min(a: int, b: int): int
  {
    if a < b then a else b
  }

  function Retry(c: Core, fd: nat): Core
    requires fd < |c.socks|
  {
    var c' := Closed(c, fd).(state := Disconnected);
    if c.connect then c'.(retries := c.retries + 1, retryDelayMs := Min(c.retryDelayMs * 2, MAX_RETRY_DELAY_MS)) else c'
  }

  /** disableAll, remove, and a functor that will reset the channel. */
  function RemoveAndReset(c: Core): Core
    requires c.channel.Some?
  {
    c.(channel := Some(c.channel.value.(registered := false)), queued := c.queued + [ResetChannel])
  }

  function Start(c: Core, outcome: Outcome): Core
  {
    if !c.connect then c
    else
      var fd := |c.socks|;
      var opened' := c.(socks := c.socks + [Fate(0, 0)]);
      match outcome
      case UnderWay => opened'.(state := Connecting, channel := Some(Chan(fd, true)))
      case TryAgain => Retry(opened', fd)
      case Hopeless => Closed(opened', fd)
  }

  /** Stop as the queued functor does it. */
  function Stop(c: Core): Core
    requires c.state == Connecting ==> c.channel.Some? && c.channel.value.fd < |c.socks|
  {
    if c.state == Connecting then Retry(RemoveAndReset(c.(state := Disconnected)), c.channel.value.fd) else c
  }

  /** sound: the socket reports no error and is not connected to itself. */
  function HandleWriteSpec(c: Core, sound: bool): Core
    requires c.state == Connecting ==> c.channel.Some? && c.channel.value.fd < |c.socks|
  {
    if c.state != Connecting then c
    else
      var fd, removed := c.channel.value.fd, RemoveAndReset(c);
      if !sound then Retry(removed, fd)
      else if c.connect then HandedOver(removed.(state := Connected), fd)
      else Closed(removed.(state := Connected), fd)
  }

  function HandleErrorSpec(c: Core): Core
    requires c.channel.Some? && c.channel.value.fd < |c.socks|
  {
    Retry(RemoveAndReset(c), c.channel.value.fd)
  }

  /** One dispatch of the channel: the error callback before the write callback. */
  function Dispatch(c: Core, err: bool, out: bool, sound: bool): Core
    requires c.channel.Some? && c.channel.value.fd < |c.socks|
  {
    var c' := if err then HandleErrorSpec(c) else c;
    if out then HandleWriteSpec(c', sound) else c'
  }

  // ---- the loop around it ----

  /** ready: the connector's channel is among the active ones and not handled yet. batch: the swapped functors. */
  datatype Phase = Polling | Dispatching(ready: bool) | RunningFunctors(batch: seq<Functor>)

  /** due counts retry timers set in an earlier iteration, recent those set in this one. */
  datatype State = State(core: Core, phase: Phase, started: bool, due: nat, recent: nat)

  datatype Action =
    | CallStart(inLoop: bool, outcome: Outcome)     // start(), from the loop thread or another
    | CallStop                                      // stop()
    | Poll(ready: bool)
    | HandleEvent(err: bool, out: bool, sound: bool)
    | TimerFires(early: bool, outcome: Outcome)
    | EndDispatch
    | RunFunctor(outcome: Outcome)
    | EndFunctors

  predicate Enabled(s: State, a: Action)
  {
    match a
    case CallStart(_, _) => !s.started
    case CallStop => true
    case Poll(ready) => s.phase == Polling && (ready ==> s.core.channel.Some? && s.core.channel.value.registered)
    case HandleEvent(err, out, _) => s.phase == Dispatching(true)
    case TimerFires(early, _) => s.phase.Dispatching? && (if early then s.recent > 0 else s.due > 0)
    case EndDispatch => s.phase == Dispatching(false)
    case RunFunctor(_) => s.phase.RunningFunctors? && s.phase.batch != []
    case EndFunctors => s.phase == RunningFunctors([])
  }

  predicate ChannelExists(c: Core)
  {
    c.channel.Some? && c.channel.value.fd < |c.socks|
  }

  predicate StartHolds(c: Core, outcome: Outcome)
  {
    c.state == Disconnected && (c.connect && outcome == UnderWay ==> c.channel.None?)
  }

  /** The assertions of the source on the way of an action, and that a channel it dereferences exists. */
  predicate AssertionsHold(s: State, a: Action)
    requires Enabled(s, a)
  {
    var c := s.core;
    match a
    case CallStart(inLoop, outcome) => inLoop ==> StartHolds(c.(connect := true), outcome)
    case HandleEvent(err, out, _) =>
      ChannelExists(c) && (err ==> c.state == Connecting) && (out && !err ==> c.state != Connected)
    case TimerFires(_, outcome) => StartHolds(c, outcome)
    case RunFunctor(outcome) =>
      (match s.phase.batch[0]
       case StartInLoop => StartHolds(c, outcome)
       case StopInLoop => c.state == Connecting ==> ChannelExists(c)
       case ResetChannel => true)
    case _ => true
  }

  /** A change of the connector; timers it sets belong to this iteration. */
  function With(s: State, c: Core): State
    requires c.retries >= s.core.retries
  {
    s.(core := c, recent := s.recent + (c.retries - s.core.retries))
  }

  function Step(s: State, a: Action): State
    requires Enabled(s, a) && AssertionsHold(s, a)
  {
    var c := s.core;
    match a
    case CallStart(inLoop, outcome) =>
      var c' := c.(connect := true);
      With(s.(started := true), if inLoop then Start(c', outcome) else c'.(queued := c.queued + [StartInLoop]))
    case CallStop => s.(core := c.(connect := false, queued := c.queued + [StopInLoop]))
    case Poll(ready) => s.(phase := Dispatching(ready))
    case HandleEvent(err, out, sound) => With(s.(phase := Dispatching(false)), Dispatch(c, err, out, sound))
    case TimerFires(early, outcome) =>
      With(if early then s.(recent := s.recent - 1) else s.(due := s.due - 1), Start(c, outcome))
    case EndDispatch => s.(phase := RunningFunctors(c.queued), core := c.(queued := []))
    case RunFunctor(outcome) =>
      var s' := s.(phase := RunningFunctors(s.phase.batch[1..]));
      (match s.phase.batch[0]
       case StartInLoop => With(s', Start(c, outcome))
       case StopInLoop => With(s', Stop(c))
       case ResetChannel => s'.(core := c.(channel := None)))
    case EndFunctors => s.(phase := Polling, due := s.due + s.recent, recent := 0)
  }

  /** A connector just made, in a loop at any point of an iteration but with nothing in hand. */
  predicate Made(s: State)
  {
    && !s.core.connect && s.core.state == Disconnected && s.core.channel.None?
    && s.core.retryDelayMs == INIT_RETRY_DELAY_MS
    && s.core.socks == [] && s.core.queued == [] && s.core.retries == 0
    && !s.started && s.due == s.recent == 0
    && (s.phase == Polling || s.phase == Dispatching(false) || (s.phase.RunningFunctors? && s.phase.batch == []))
  }

  predicate Valid(s: State, run: seq<Action>)
    decreases |run|
  {
    run == [] || (Enabled(s, run[0]) && AssertionsHold(s, run[0]) && Valid(Step(s, run[0]), run[1..]))
  }

  function Run(s: State, run: seq<Action>): State
    requires Valid(s, run)
    decreases |run|
  {
    if run == [] then s else Run(Step(s, run[0]), run[1..])
  }

  /** What a run may do: let a retry timer fire in the iteration that set it, and call stop() before start(). */
  datatype Policy = Policy(earlyTimers: bool, stopFirst: bool)

  const ORDERLY := Policy(false, false)

  predicate Allowed(s: State, a: Action, policy: Policy)
  {
    (a.TimerFires? && a.early ==> policy.earlyTimers) && (a.CallStop? && !s.started ==> policy.stopFirst)
  }

  predicate AllAllowed(s: State, run: seq<Action>, policy: Policy)
    requires Valid(s, run)
    decreases |run|
  {
    run == [] || (Allowed(s, run[0], policy) && AllAllowed(Step(s, run[0]), run[1..], policy))
  }

  // ---- what holds in every reachable state of a run of the orderly kind ----

  function Count(fs: seq<Functor>, f: Functor): nat
  {
    if fs == [] then 0 else (if fs[0] == f then 1 else 0) + Count(fs[1..], f)
  }

  function Batch(s: State): seq<Functor>
  {
    if s.phase.RunningFunctors? then s.phase.batch else []
  }

  /** How often functor f is still to run. */
  function Ahead(s: State, f: Functor): nat
  {
    Count(Batch(s), f) + Count(s.core.queued, f)
  }

  /** Every socket but the one being connected has been closed once or handed over once. */
  predicate Ledger(c: Core)
  {
    forall fd :: 0 <= fd < |c.socks| ==>
      if c.state == Connecting && c.channel.Some? && fd == c.channel.value.fd then c.socks[fd] == Fate(0, 0)
      else c.socks[fd] == Fate(1, 0) || (c.socks[fd] == Fate(0, 1) && c.state == Connected && fd == |c.socks| - 1)
  }

  /** Before start() has had its effect. */
  predicate Untouched(s: State)
  {
    && s.core.state == Disconnected && s.core.channel.None? && s.core.socks == []
    && s.core.retries == s.due == s.recent == 0
  }

  /** All but the ledger. The last three clauses are why a retry never finds the channel still waiting for its reset. */
  predicate Shape(s: State)
  {
    var c := s.core;
    && s.due + s.recent <= 1
    && (s.due + s.recent == 1 ==> c.state == Disconnected)
    && Ahead(s, StartInLoop) <= 1
    && (!s.started || Ahead(s, StartInLoop) == 1 ==> Untouched(s))
    && (!s.started ==> Ahead(s, StartInLoop) == Ahead(s, StopInLoop) == 0)
    && Ahead(s, ResetChannel) == (if c.channel.Some? && c.state != Connecting then 1 else 0)
    && (c.channel.Some? ==> ChannelExists(c) && (c.channel.value.registered <==> c.state == Connecting))
    && (c.state == Connecting ==> c.channel.Some? && c.channel.value.fd == |c.socks| - 1)
    && (s.phase == Dispatching(true) ==> c.state == Connecting)
    && (c.channel.Some? ==> s.due == 0)
    && (!s.phase.Dispatching? && Count(c.queued, ResetChannel) > 0 ==> s.recent == 0)
    && (Ahead(s, StopInLoop) > 0 ==> s.started && !c.connect)
  }

  predicate Inv(s: State)
  {
    Ledger(s.core) && Shape(s)
  }

  lemma {:induction false} CountAppend(fs: seq<Functor>, f: Functor, g: Functor)
    ensures Count(fs + [f], g) == Count(fs, g) + if f == g then 1 else 0
  {
    if fs == [] {
      assert fs + [f] == [f];
    } else {
      assert (fs + [f])[1..] == fs[1..] + [f];
      CountAppend(fs[1..], f, g);
    }
  }

  lemma Counts(fs: seq<Functor>)
    ensures forall f, g :: Count(fs + [f], g) == Count(fs, g) + if f == g then 1 else 0
    ensures fs != [] ==> forall g :: Count(fs, g) == (if fs[0] == g then 1 else 0) + Count(fs[1..], g)
    ensures forall g :: Count([], g) == 0
  {
    forall f, g ensures Count(fs + [f], g) == Count(fs, g) + if f == g then 1 else 0 { CountAppend(fs, f, g); }
  }

  lemma AssertionsFollow(s: State, a: Action)
    requires Inv(s) && Enabled(s, a) && Allowed(s, a, ORDERLY)
    ensures AssertionsHold(s, a)
  {
    Counts(Batch(s));
    hide Count;
  }

  lemma StartKeepsLedger(c: Core, outcome: Outcome)
    requires Ledger(c) && StartHolds(c, outcome)
    ensures Ledger(Start(c, outcome))
  {
  }

  lemma StopKeepsLedger(c: Core)
    requires Ledger(c) && (c.state == Connecting ==> ChannelExists(c))
    ensures Ledger(Stop(c))
  {
  }

  lemma DispatchKeepsLedger(c: Core, err: bool, out: bool, sound: bool)
    requires Ledger(c) && ChannelExists(c) && c.state == Connecting && c.channel.value.fd == |c.socks| - 1
    ensures Ledger(Dispatch(c, err, out, sound))
  {
  }

  lemma StepKeepsLedger(s: State, a: Action)
    requires Inv(s) && Enabled(s, a) && AssertionsHold(s, a)
    ensures Ledger(Step(s, a).core)
  {
    Counts(Batch(s));
    hide Start, Stop, Dispatch, Count;
    var c := s.core;
    match a
    case CallStart(inLoop, outcome) => if inLoop { StartKeepsLedger(c.(connect := true), outcome); }
    case HandleEvent(err, out, sound) => DispatchKeepsLedger(c, err, out, sound);
    case TimerFires(_, outcome) => StartKeepsLedger(c, outcome);
    case RunFunctor(outcome) =>
      if s.phase.batch[0].StartInLoop? { StartKeepsLedger(c, outcome); }
      if s.phase.batch[0].StopInLoop? { StopKeepsLedger(c); }
    case CallStop =>
    case Poll(_) =>
    case EndDispatch =>
    case EndFunctors =>
  }

  lemma FunctorKeepsShape(s: State, a: Action)
    requires a.RunFunctor? && Inv(s) && Enabled(s, a) && AssertionsHold(s, a)
    ensures Shape(Step(s, a))
  {
    Counts(Batch(s));
    Counts(s.core.queued);
    hide Count, Ledger;
  }

  lemma CallKeepsShape(s: State, a: Action)
    requires (a.CallStart? || a.CallStop?) && Inv(s) && Enabled(s, a) && AssertionsHold(s, a) && Allowed(s, a, ORDERLY)
    ensures Shape(Step(s, a))
  {
    Counts(Batch(s));
    Counts(s.core.queued);
    hide Count, Ledger;
  }

  lemma EventKeepsShape(s: State, a: Action)
    requires a.HandleEvent? || a.TimerFires?
    requires Inv(s) && Enabled(s, a) && AssertionsHold(s, a) && Allowed(s, a, ORDERLY)
    ensures Shape(Step(s, a))
  {
    Counts(Batch(s));
    Counts(s.core.queued);
    hide Count, Ledger;
  }

  lemma PhaseKeepsShape(s: State, a: Action)
    requires (a.Poll? || a.EndDispatch? || a.EndFunctors?) && Inv(s) && Enabled(s, a) && AssertionsHold(s, a)
    ensures Shape(Step(s, a))
  {
    Counts(Batch(s));
    Counts(s.core.queued);
    hide Count, Ledger;
  }

  lemma StepKeepsInv(s: State, a: Action)
    requires Inv(s) && Enabled(s, a) && Allowed(s, a, ORDERLY)
    ensures AssertionsHold(s, a) && Inv(Step(s, a))
  {
    AssertionsFollow(s, a);
    hide Step, Ledger, Shape, AssertionsHold;
    StepKeepsLedger(s, a);
    match a
    case RunFunctor(_) => FunctorKeepsShape(s, a);
    case CallStart(_, _) => CallKeepsShape(s, a);
    case CallStop => CallKeepsShape(s, a);
    case HandleEvent(_, _, _) => EventKeepsShape(s, a);
    case TimerFires(_, _) => EventKeepsShape(s, a);
    case _ => PhaseKeepsShape(s, a);
  }

  lemma {:induction false} RunKeepsInv(s: State, run: seq<Action>)
    requires Inv(s) && Valid(s, run) && AllAllowed(s, run, ORDERLY)
    ensures Inv(Run(s, run))
    decreases |run|
  {
    hide Inv, Step, Enabled, AssertionsHold, Allowed;
    if run != [] {
      StepKeepsInv(s, run[0]);
      RunKeepsInv(Step(s, run[0]), run[1..]);
    }
  }

  lemma MadeHasLedger(c: Core)
    requires c.socks == []
    ensures Ledger(c)
  {
  }

  lemma MadeHasInv(s: State)
    requires Made(s)
    ensures Inv(s)
  {
    hide Ledger;
    assert Ledger(s.core) by { MadeHasLedger(s.core); }
    assert Batch(s) == [] && s.core.queued == [];
  }

  // ---- sockets ----

  /** Every socket ever opened has been closed once or handed over once, except the one being connected, and there is
      such a one exactly while the connector is connecting. At most one socket, the last, is ever handed over. */
  lemma SocketsLinear(s: State, run: seq<Action>, fd: nat)
    requires Made(s) && Valid(s, run) && AllAllowed(s, run, ORDERLY) && fd < |Run(s, run).core.socks|
    ensures var c := Run(s, run).core;
            && (c.socks[fd] == Fate(0, 0) || c.socks[fd] == Fate(1, 0) || c.socks[fd] == Fate(0, 1))
            && (c.socks[fd] == Fate(0, 0) <==> c.state == Connecting && fd == |c.socks| - 1)
            && (c.socks[fd] == Fate(0, 1) ==> c.state == Connected && fd == |c.socks| - 1)
            && (c.state == Connecting ==> c.channel == Some(Chan(|c.socks| - 1, true)))
  {
    MadeHasInv(s);
    RunKeepsInv(s, run);
    hide Run, Valid, AllAllowed, Made, Ahead, Count;
    var c := Run(s, run).core;
    assert Ledger(c) && Shape(Run(s, run));
  }

  /** How often a socket has been closed or handed over. */
  function Endings(c: Core, fd: nat): nat
    requires fd < |c.socks|
  {
    c.socks[fd].closes + c.socks[fd].handed
  }

  /** An event dispatch retries once at most, error and write together included, and only while not stopped. */
  lemma OneRetryPerDispatch(c: Core, err: bool, out: bool, sound: bool)
    requires ChannelExists(c) && c.state == Connecting
    ensures var c' := Dispatch(c, err, out, sound);
            && c'.retries == c.retries + (if c.connect && (err || (out && !sound)) then 1 else 0)
            && Endings(c', c.channel.value.fd) == Endings(c, c.channel.value.fd) + (if err || out then 1 else 0)
            && (c'.state == Connected <==> out && !err && sound)
            && |c'.queued| == |c.queued| + (if err || out then 1 else 0)
  {
  }

  // ---- when the assertions hold ----

  /** Some run the policy allows comes to an allowed action whose assertions fail. */
  ghost predicate MayFail(s: State, policy: Policy)
  {
    exists run: seq<Action>, a: Action :: Fails(s, run, a, policy)
  }

  predicate Fails(s: State, run: seq<Action>, a: Action, policy: Policy)
  {
    && Valid(s, run) && AllAllowed(s, run, policy) && Enabled(Run(s, run), a) && Allowed(Run(s, run), a, policy)
    && !AssertionsHold(Run(s, run), a)
  }

  lemma {:induction false} OneMore(s: State, run: seq<Action>, a: Action, policy: Policy) returns (longer: seq<Action>)
    requires Valid(s, run) && AllAllowed(s, run, policy)
    requires Enabled(Run(s, run), a) && AssertionsHold(Run(s, run), a) && Allowed(Run(s, run), a, policy)
    ensures Valid(s, longer) && AllAllowed(s, longer, policy) && Run(s, longer) == Step(Run(s, run), a)
    decreases |run|
  {
    hide Enabled, AssertionsHold, Allowed, Step;
    if run == [] {
      longer := [a];
      assert longer[1..] == [];
    } else {
      var rest := OneMore(Step(s, run[0]), run[1..], a, policy);
      longer := [run[0]] + rest;
      assert longer[1..] == rest;
    }
  }

  /** A timer that fires at once finds the channel of the failed attempt still there. */
  lemma EarlyTimerFails(s: State, policy: Policy)
    requires Made(s) && s.phase == Polling && policy.earlyTimers
    ensures MayFail(s, policy)
  {
    hide Valid, Run, AllAllowed;
    var run := NoSteps(s, policy);
    run := OneMore(s, run, Poll(false), policy);
    run := OneMore(s, run, CallStart(true, UnderWay), policy);
    run := OneMore(s, run, EndDispatch, policy);
    run := OneMore(s, run, EndFunctors, policy);
    run := OneMore(s, run, Poll(true), policy);
    run := OneMore(s, run, HandleEvent(true, false, true), policy);
    assert Fails(s, run, TimerFires(true, UnderWay), policy);
  }

  /** So does a timer set by the functor of a stop() that came before start(): the functor that resets the channel is
      queued for the next iteration, in which the timer may fire before it. */
  lemma StopFirstFails(s: State, policy: Policy)
    requires Made(s) && s.phase == Polling && policy.stopFirst
    ensures MayFail(s, policy)
  {
    hide Valid, Run, AllAllowed;
    var run := NoSteps(s, policy);
    run := OneMore(s, run, Poll(false), policy);
    run := OneMore(s, run, CallStop, policy);
    run := OneMore(s, run, CallStart(true, UnderWay), policy);
    run := OneMore(s, run, EndDispatch, policy);
    run := OneMore(s, run, RunFunctor(UnderWay), policy);
    run := OneMore(s, run, EndFunctors, policy);
    run := OneMore(s, run, Poll(false), policy);
    assert Fails(s, run, TimerFires(false, UnderWay), policy);
  }

  lemma NoSteps(s: State, policy: Policy) returns (run: seq<Action>)
    ensures Valid(s, run) && AllAllowed(s, run, policy) && Run(s, run) == s
  {
    run := [];
  }

  /** With one call of start(), the assertions hold in all runs if and only if retry timers fire in a later iteration
      than the one that set them and stop() never comes before start(). */
  lemma MayFailExactlyWhen(s: State, policy: Policy)
    requires Made(s) && s.phase == Polling
    ensures MayFail(s, policy) <==> policy.earlyTimers || policy.stopFirst
  {
    if policy.earlyTimers {
      EarlyTimerFails(s, policy);
    } else if policy.stopFirst {
      StopFirstFails(s, policy);
    } else {
      MadeHasInv(s);
      forall run, a ensures !Fails(s, run, a, policy) {
        if Valid(s, run) && AllAllowed(s, run, policy) && Enabled(Run(s, run), a) && Allowed(Run(s, run), a, policy) {
          RunKeepsInv(s, run);
          AssertionsFollow(Run(s, run), a);
        }
      }
    }
  }

  // ---- whether there will be another attempt ----

  /** What one attempt comes to, in a step that makes one: a socket is opened; a refusal leaves it closed and one timer
      set, a hopeless failure leaves it closed and no timer. */
  lemma AttemptLeaves(s: State, a: Action)
    requires Inv(s) && Enabled(s, a) && AssertionsHold(s, a) && Allowed(s, a, ORDERLY)
    requires Attempts(s, a)
    ensures var t := Step(s, a); var c := t.core;
            && |c.socks| == |s.core.socks| + 1
            && c.socks[|s.core.socks|] == (if a.outcome == UnderWay then Fate(0, 0) else Fate(1, 0))
            && (c.state == Connecting <==> a.outcome == UnderWay)
            && t.due + t.recent == (if a.outcome == TryAgain then 1 else 0)
  {
    Counts(Batch(s));
    hide Ledger, Count;
  }

  /** The step calls connect. */
  predicate Attempts(s: State, a: Action)
    requires Enabled(s, a)
  {
    || (a.TimerFires? && s.core.connect)
    || (a.CallStart? && a.inLoop)
    || (a.RunFunctor? && s.phase.batch[0].StartInLoop? && s.core.connect)
  }

  /** The connector is idle but will try again: a timer is set, or the functor of start() is still queued. */
  predicate WillTry(s: State)
  {
    s.core.connect && (s.due + s.recent > 0 || Ahead(s, StartInLoop) > 0)
  }

  predicate OpensAnother(s: State, run: seq<Action>)
  {
    Valid(s, run) && AllAllowed(s, run, ORDERLY) && |Run(s, run).core.socks| > |s.core.socks|
  }

  /** Idle for good. */
  predicate GivenUp(s: State)
  {
    s.started && s.core.state == Disconnected && !WillTry(s)
  }

  lemma GivenUpStays(s: State, a: Action)
    requires Inv(s) && Enabled(s, a) && AssertionsHold(s, a) && Allowed(s, a, ORDERLY) && GivenUp(s)
    ensures GivenUp(Step(s, a)) && |Step(s, a).core.socks| == |s.core.socks|
  {
    Counts(Batch(s));
    Counts(s.core.queued);
    hide Count, Ledger;
  }

  lemma {:induction false} GivenUpForever(s: State, run: seq<Action>)
    requires Inv(s) && Valid(s, run) && AllAllowed(s, run, ORDERLY) && GivenUp(s)
    ensures |Run(s, run).core.socks| == |s.core.socks|
    decreases |run|
  {
    hide Inv, Step, Enabled, AssertionsHold, Allowed, GivenUp;
    if run != [] {
      GivenUpStays(s, run[0]);
      StepKeepsInv(s, run[0]);
      GivenUpForever(Step(s, run[0]), run[1..]);
    }
  }

  /** How many steps an idle connector that will try again is, at most, from its next attempt. */
  function StepsToTry(s: State): nat
  {
    match s.phase
    case Dispatching(_) => if s.due > 0 then 1 else |s.core.queued| + 4
    case Polling => if s.due > 0 then 2 else |s.core.queued| + 5
    case RunningFunctors(batch) =>
      |batch| + 1 + (if s.due + s.recent > 0 || Count(batch, StartInLoop) > 0 then 2 else |s.core.queued| + 5)
  }

  /** What the loop does next when nothing is reported. */
  function NextOfLoop(s: State): Action
  {
    match s.phase
    case Dispatching(_) => if s.due > 0 then TimerFires(false, TryAgain) else EndDispatch
    case Polling => Poll(false)
    case RunningFunctors(batch) => if batch == [] then EndFunctors else RunFunctor(TryAgain)
  }

  lemma OneStepToTry(s: State)
    requires Inv(s) && s.core.state == Disconnected && WillTry(s)
    ensures Enabled(s, NextOfLoop(s)) && Allowed(s, NextOfLoop(s), ORDERLY) && AssertionsHold(s, NextOfLoop(s))
    ensures var t := Step(s, NextOfLoop(s));
            || |t.core.socks| > |s.core.socks|
            || (|t.core.socks| == |s.core.socks| && t.core.state == Disconnected && WillTry(t)
                && StepsToTry(t) < StepsToTry(s))
  {
    Counts(Batch(s));
    Counts(s.core.queued);
    hide Count, Ledger;
    AssertionsFollow(s, NextOfLoop(s));
  }

  lemma {:induction false} DriveToTry(s: State) returns (run: seq<Action>)
    requires Inv(s) && s.core.state == Disconnected && WillTry(s)
    ensures OpensAnother(s, run)
    decreases StepsToTry(s)
  {
    var a := NextOfLoop(s);
    OneStepToTry(s);
    StepKeepsInv(s, a);
    var t := Step(s, a);
    hide Inv, Step, Enabled, AssertionsHold, Allowed, StepsToTry, WillTry, NextOfLoop;
    var rest := [];
    if |t.core.socks| <= |s.core.socks| { rest := DriveToTry(t); }
    FirstStep(s, a, rest);
    run := [a] + rest;
  }

  lemma FirstStep(s: State, a: Action, rest: seq<Action>)
    requires Enabled(s, a) && AssertionsHold(s, a) && Allowed(s, a, ORDERLY)
    requires Valid(Step(s, a), rest) && AllAllowed(Step(s, a), rest, ORDERLY)
    ensures Valid(s, [a] + rest) && AllAllowed(s, [a] + rest, ORDERLY)
    ensures Run(s, [a] + rest) == Run(Step(s, a), rest)
  {
    hide Step, Enabled, AssertionsHold, Allowed;
    assert ([a] + rest)[1..] == rest;
  }

  /** Idle, the connector can open another socket in some orderly run if and only if it has not been stopped and a timer
      is set or the functor of start() is still to run; a loop left alone then gets there. */
  lemma TriesAgainExactlyWhen(s: State)
    requires Inv(s) && s.started && s.core.state == Disconnected
    ensures (exists run :: OpensAnother(s, run)) <==> WillTry(s)
  {
    if WillTry(s) {
      var run := DriveToTry(s);
    } else {
      forall run ensures !OpensAnother(s, run) {
        if Valid(s, run) && AllAllowed(s, run, ORDERLY) { GivenUpForever(s, run); }
      }
    }
  }

  /** An attempt that fails leads to another one if and only if it was refused and not hopeless. */
  lemma FailedAttemptExactlyWhen(s: State, a: Action)
    requires Inv(s) && Enabled(s, a) && AssertionsHold(s, a) && Allowed(s, a, ORDERLY)
    requires Attempts(s, a) && a.outcome != UnderWay
    ensures Inv(Step(s, a)) && ((exists run :: OpensAnother(Step(s, a), run)) <==> a.outcome == TryAgain)
  {
    AttemptLeaves(s, a);
    StepKeepsInv(s, a);
    StartedAfter(s, a);
    TriesAgainExactlyWhen(Step(s, a));
  }

  lemma StartedAfter(s: State, a: Action)
    requires Inv(s) && Enabled(s, a) && AssertionsHold(s, a) && Allowed(s, a, ORDERLY)
    requires Attempts(s, a) && a.outcome != UnderWay
    ensures var t := Step(s, a);
            t.started && t.core.state == Disconnected && t.core.connect && Ahead(t, StartInLoop) == 0
  {
    Counts(Batch(s));
    hide Count, Ledger;
  }

  // ---- stop() ----

  /** Once stopped, in every run: no socket is opened and none is handed over that has not been; what is being connected
      ends closed. */
  lemma StepStopped(s: State, a: Action)
    requires Inv(s) && Enabled(s, a) && AssertionsHold(s, a) && s.started && !s.core.connect
    ensures var t := Step(s, a);
            && t.started && !t.core.connect && |t.core.socks| == |s.core.socks|
            && forall fd :: 0 <= fd < |s.core.socks| ==> t.core.socks[fd].handed == s.core.socks[fd].handed
  {
    hide Count, Ledger;
  }

  lemma {:induction false} StoppedForever(s: State, run: seq<Action>)
    requires Inv(s) && s.started && !s.core.connect && Valid(s, run) && AllAllowed(s, run, ORDERLY)
    ensures var c := Run(s, run).core;
            && !c.connect && |c.socks| == |s.core.socks|
            && forall fd :: 0 <= fd < |s.core.socks| ==> c.socks[fd].handed == s.core.socks[fd].handed
    decreases |run|
  {
    hide Inv, Step, Enabled, AssertionsHold, Allowed;
    if run != [] {
      StepStopped(s, run[0]);
      StepKeepsInv(s, run[0]);
      StoppedForever(Step(s, run[0]), run[1..]);
    }
  }

  /** stop() after start(): from then on, whatever happens, nothing is opened and nothing handed over. */
  lemma StopIsFinal(s: State, run: seq<Action>)
    requires Inv(s) && s.started && Valid(Step(s, CallStop), run) && AllAllowed(Step(s, CallStop), run, ORDERLY)
    ensures var c := Run(Step(s, CallStop), run).core;
            && |c.socks| == |s.core.socks|
            && forall fd :: 0 <= fd < |s.core.socks| ==> c.socks[fd].handed == s.core.socks[fd].handed
  {
    StepKeepsInv(s, CallStop);
    StoppedForever(Step(s, CallStop), run);
  }

  // ---- the delay between retries ----

  function Backoff(retries: nat): int
  {
    if retries == 0 then INIT_RETRY_DELAY_MS else Min(Backoff(retries - 1) * 2, MAX_RETRY_DELAY_MS)
  }

  function PowerOfTwo(n: nat): nat
  {
    if n == 0 then 1 else 2 * PowerOfTwo(n - 1)
  }

  /** The delay doubles from 500 ms up to half a minute. */
  lemma {:induction false} BackoffIs(retries: nat)
    ensures Backoff(retries) == Min(500 * PowerOfTwo(retries), 30_000)
  {
    if retries > 0 { BackoffIs(retries - 1); }
  }

  predicate DelayIsBackoff(c: Core)
  {
    c.retryDelayMs == Backoff(c.retries)
  }

  lemma StepKeepsDelay(s: State, a: Action)
    requires Enabled(s, a) && AssertionsHold(s, a) && DelayIsBackoff(s.core)
    ensures DelayIsBackoff(Step(s, a).core)
  {
  }

  /** In every run the next delay depends on the number of retries so far, and on nothing else. */
  lemma {:induction false} RunKeepsDelay(s: State, run: seq<Action>)
    requires Valid(s, run) && DelayIsBackoff(s.core)
    ensures DelayIsBackoff(Run(s, run).core)
    decreases |run|
  {
    hide Step, Enabled, AssertionsHold, DelayIsBackoff;
    if run != [] {
      StepKeepsDelay(s, run[0]);
      RunKeepsDelay(Step(s, run[0]), run[1..]);
    }
  }

  /** The delay is divided by 1000 and passed as the microseconds that runAfter takes, so the retry is due when the
      timer descriptor's floor of 100 microseconds has passed, exactly as for every delay below 101 seconds: no
      retry waits any longer than the first. */
  lemma BackoffWithoutEffect(retries: nat, clock: int, ms: nat)
    ensures TimerClock.Arm(clock, clock + ms / 1000).deadline == clock + 100 <==> ms < 101_000
    ensures TimerClock.Arm(clock, clock + Backoff(retries) / 1000).deadline == clock + 100
  {
    TimerClock.ArmDeadline(clock, clock + ms / 1000);
    TimerClock.ArmDeadline(clock, clock + Backoff(retries) / 1000);
    BackoffIs(retries);
  }

  // ---- the connector's own methods ----

  /** ledger and queued are the kernel's sockets and the loop's queue as far as this connector has changed them. */
  class Connector {
    var connect: bool
    var state: ConnectState
    var channel: Option<Chan>
    var retryDelayMs: int
    var ledger: seq<Fate>
    var queued: seq<Functor>
    var timersSet: nat

    ghost function View(): Core
      reads this
    {
      Core(connect, state, channel, retryDelayMs, ledger, queued, timersSet)
    }

    constructor ()
      ensures View() == Core(false, Disconnected, None, INIT_RETRY_DELAY_MS, [], [], 0)
    {
      connect, state, channel, retryDelayMs := false, Disconnected, None, INIT_RETRY_DELAY_MS;
      ledger, queued, timersSet := [], [], 0;
    }

    method CloseSocket(fd: nat)
      requires fd < |ledger|
      modifies this`ledger
      ensures View() == Closed(old(View()), fd)
      ensures ledger == old(ledger)[fd := Fate(old(ledger)[fd].closes + 1, old(ledger)[fd].handed)]
    {
      ledger := ledger[fd := ledger[fd].(closes := ledger[fd].closes + 1)];
    }

    method RetryLater(fd: nat)
      requires fd < |ledger|
      modifies this
      ensures View() == Retry(old(View()), fd)
      ensures timersSet == old(timersSet) + (if connect then 1 else 0) && state == Disconnected
      ensures ledger == old(ledger)[fd := Fate(old(ledger)[fd].closes + 1, old(ledger)[fd].handed)]
      ensures connect == old(connect) && channel == old(channel) && queued == old(queued)
    {
      CloseSocket(fd);
      state := Disconnected;
      if connect {
        timersSet := timersSet + 1;
        retryDelayMs := retryDelayMs * 2;
        if retryDelayMs >= MAX_RETRY_DELAY_MS { retryDelayMs := MAX_RETRY_DELAY_MS; }
      }
    }

    method RemoveAndResetChannel() returns (fd: nat)
      requires channel.Some?
      modifies this`channel, this`queued
      ensures View() == RemoveAndReset(old(View())) && fd == channel.value.fd
      ensures channel == Some(Chan(fd, false)) && queued == old(queued) + [ResetChannel]
    {
      channel := Some(channel.value.(registered := false));
      queued := queued + [ResetChannel];
      fd := channel.value.fd;
    }

    method ResetTheChannel()
      modifies this`channel
      ensures View() == old(View()).(channel := None)
    {
      channel := None;
    }

    /** start(), from the loop thread or from another, which queues the rest. */
    method BeginConnecting(inLoop: bool, outcome: Outcome)
      requires inLoop ==> StartHolds(View().(connect := true), outcome)
      modifies this
      ensures connect
      ensures View() == if inLoop then Start(old(View()).(connect := true), outcome)
                        else old(View()).(connect := true, queued := old(queued) + [StartInLoop])
    {
      connect := true;
      if inLoop {
        StartNow(outcome);
      } else {
        queued := queued + [StartInLoop];
      }
    }

    /** stop() */
    method StopConnecting()
      modifies this
      ensures !connect && queued == old(queued) + [StopInLoop]
      ensures View() == old(View()).(connect := false, queued := old(queued) + [StopInLoop])
    {
      connect := false;
      queued := queued + [StopInLoop];
    }

    /** startInLoop with connect and connecting. */
    method StartNow(outcome: Outcome)
      requires StartHolds(View(), outcome)
      modifies this
      ensures View() == Start(old(View()), outcome)
      ensures !connect ==> View() == old(View())
      ensures connect && outcome == UnderWay ==>
                && ledger == old(ledger) + [Fate(0, 0)] && timersSet == old(timersSet)
                && state == Connecting && channel == Some(Chan(|old(ledger)|, true))
      ensures connect && outcome == TryAgain ==>
                && ledger == old(ledger) + [Fate(1, 0)] && timersSet == old(timersSet) + 1
                && state == Disconnected && channel == old(channel)
      ensures connect && outcome == Hopeless ==>
                && ledger == old(ledger) + [Fate(1, 0)] && timersSet == old(timersSet)
                && state == Disconnected && channel == old(channel)
      ensures connect == old(connect) && queued == old(queued)
    {
      if connect {
        var fd := |ledger|;
        ledger := ledger + [Fate(0, 0)];
        match outcome {
          case UnderWay =>
            state := Connecting;
            assert channel.None?;
            channel := Some(Chan(fd, true));
          case TryAgain => RetryLater(fd);
          case Hopeless => CloseSocket(fd);
        }
      }
    }

    method StopNow()
      requires state == Connecting ==> ChannelExists(View())
      modifies this
      ensures View() == Stop(old(View())) && state != Connecting
      ensures old(state) != Connecting ==> View() == old(View())
      ensures old(state) == Connecting ==>
                var fd := old(channel).value.fd;
                && ledger == old(ledger)[fd := Fate(old(ledger)[fd].closes + 1, old(ledger)[fd].handed)]
                && timersSet == old(timersSet) + (if connect then 1 else 0) && state == Disconnected
                && channel == Some(Chan(fd, false)) && queued == old(queued) + [ResetChannel]
    {
      if state == Connecting {
        state := Disconnected;
        var fd := RemoveAndResetChannel();
        RetryLater(fd);
      }
    }

    /** The loop comes to a functor this connector has queued. */
    method RunQueued(f: Functor, outcome: Outcome)
      requires f.StartInLoop? ==> StartHolds(View(), outcome)
      requires f.StopInLoop? && state == Connecting ==> ChannelExists(View())
      modifies this
      ensures match f
              case StartInLoop => View() == Start(old(View()), outcome)
              case StopInLoop => View() == Stop(old(View())) && state != Connecting
              case ResetChannel => View() == old(View()).(channel := None)
    {
      match f {
        case StartInLoop => StartNow(outcome);
        case StopInLoop => StopNow();
        case ResetChannel => ResetTheChannel();
      }
    }

    method HandleWrite(sound: bool)
      requires state == Connecting ==> ChannelExists(View())
      requires state != Connecting ==> state == Disconnected
      modifies this
      ensures View() == HandleWriteSpec(old(View()), sound)
      ensures old(state) != Connecting ==> View() == old(View())
      ensures old(state) == Connecting ==>
                var fd := old(channel).value.fd; var Fate(closes, handed) := old(ledger)[fd];
                && ledger == old(ledger)[fd := if sound && connect then Fate(closes, handed + 1)
                                               else Fate(closes + 1, handed)]
                && state == (if sound then Connected else Disconnected)
                && timersSet == old(timersSet) + (if !sound && connect then 1 else 0)
                && channel == Some(Chan(fd, false)) && queued == old(queued) + [ResetChannel]
    {
      if state == Connecting {
        var fd := RemoveAndResetChannel();
        if !sound {
          RetryLater(fd);
        } else {
          state := Connected;
          if connect {
            ledger := ledger[fd := ledger[fd].(handed := ledger[fd].handed + 1)];
          } else {
            CloseSocket(fd);
          }
        }
      }
    }

    method HandleError()
      requires state == Connecting && ChannelExists(View())
      modifies this
      ensures View() == HandleErrorSpec(old(View()))
      ensures var fd := old(channel).value.fd;
              && ledger == old(ledger)[fd := Fate(old(ledger)[fd].closes + 1, old(ledger)[fd].handed)]
              && timersSet == old(timersSet) + (if connect then 1 else 0) && state == Disconnected
              && channel == Some(Chan(fd, false)) && queued == old(queued) + [ResetChannel]
    {
      var fd := RemoveAndResetChannel();
      RetryLater(fd);
    }

    /** Whatever a dispatch reports, the socket is closed or handed over once. */
    method HandleEvent(err: bool, out: bool, sound: bool)
      requires state == Connecting && ChannelExists(View()) && ledger[channel.value.fd] == Fate(0, 0)
      modifies this
      ensures View() == Dispatch(old(View()), err, out, sound)
      ensures timersSet == old(timersSet) + if connect && (err || (out && !sound)) then 1 else 0
      ensures state == if err then Disconnected
                       else if !out then Connecting else if sound then Connected else Disconnected
      ensures ledger == old(ledger)[old(channel).value.fd :=
                if !err && out && sound && connect then Fate(0, 1) else if err || out then Fate(1, 0) else Fate(0, 0)]
    {
      if err { HandleError(); }
      if out { HandleWrite(sound); }
    }
  }
}
