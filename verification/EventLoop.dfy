/** The functor queue of an event loop and its wakeup descriptor, as a step relation over the loop thread and any
    number of other threads. Each action is what one thread does between two points where others can interfere:
    a push or a swap under the lock, a write to or a read of the eventfd, a test of a flag. */
module EventLoop {
  import opened Wrappers

  type Functor = nat
  type Thread = nat

  /** Where the loop thread is. */
  datatype Phase =
    | Checking                                        // at the head of while (!quit_)
    | Polling                                         // in epoll_wait
    | Dispatching(wakeupActive: bool)                 // calling event handlers; the wakeup channel may still be due
    | Calling                                         // callingPendingFuntors_ set, list not yet swapped
    | Running(batch: seq<Functor>, inside: bool)      // the swapped list; inside one of its functors
    | Left                                            // loop() has returned

  /** owing holds the other threads between their push (or quit) and their write to the eventfd, loopOwes the same for
      the loop thread. ran, pushed and mark record history: the functors run from the queue, all pushes in lock
      order, and how many pushes there had been at the last swap. */
  datatype State = State(
    phase: Phase, calling: bool, quit: bool, pending: seq<Functor>, counter: nat,
    owing: set<Thread>, loopOwes: bool,
    ran: seq<Functor>, pushed: seq<Functor>, mark: nat)

  datatype Action =
    | Push(t: Thread, f: Functor)    // queueInLoop from another thread, under the lock
    | Quit(t: Thread)                // quit from another thread
    | Wake(t: Thread)                // its wakeup()
    | LoopPush(f: Functor)           // queueInLoop from an event handler or a functor
    | LoopQuit
    | LoopWake
    | Check
    | PollReturns(wakeup: bool)      // with or without the wakeup channel among the active ones
    | ReadWakeup                     // handleRead
    | BeginCalling
    | Swap
    | RunNext
    | FunctorReturns
    | EndCalling

  /** The loop thread is inside user code and may call the loop. */
  predicate InCallback(s: State)
  {
    !s.loopOwes && (s.phase.Dispatching? || (s.phase.Running? && s.phase.inside))
  }

  function Step(s: State, a: Action): Option<State>
  {
    match a
    case Push(t, f) =>
      if t in s.owing then None
      else Some(s.(pending := s.pending + [f], pushed := s.pushed + [f], owing := s.owing + {t}))
    case Quit(t) =>
      if t in s.owing then None else Some(s.(quit := true, owing := s.owing + {t}))
    case Wake(t) =>
      if t in s.owing then Some(s.(counter := s.counter + 1, owing := s.owing - {t})) else None
    case LoopPush(f) =>
      if !InCallback(s) then None
      else Some(s.(pending := s.pending + [f], pushed := s.pushed + [f], loopOwes := s.calling))
    case LoopQuit =>
      if InCallback(s) then Some(s.(quit := true)) else None
    case LoopWake =>
      if s.loopOwes then Some(s.(counter := s.counter + 1, loopOwes := false)) else None
    case Check =>
      if s.phase == Checking then Some(s.(phase := if s.quit then Left else Polling)) else None
    case PollReturns(wakeup) =>
      if s.phase == Polling && (wakeup ==> s.counter > 0) then Some(s.(phase := Dispatching(wakeup))) else None
    case ReadWakeup =>
      if s.phase == Dispatching(true) then Some(s.(counter := 0, phase := Dispatching(false))) else None
    case BeginCalling =>
      if s.phase == Dispatching(false) then Some(s.(phase := Calling, calling := true)) else None
    case Swap =>
      if s.phase != Calling then None
      else Some(s.(phase := Running(s.pending, false), pending := [], mark := |s.pushed|))
    case RunNext =>
      if s.phase.Running? && !s.phase.inside && s.phase.batch != [] then
        Some(s.(phase := Running(s.phase.batch[1..], true), ran := s.ran + [s.phase.batch[0]]))
      else None
    case FunctorReturns =>
      if s.phase.Running? && s.phase.inside && !s.loopOwes then Some(s.(phase := Running(s.phase.batch, false)))
      else None
    case EndCalling =>
      if s.phase == Running([], false) then Some(s.(phase := Checking, calling := false)) else None
  }

  function Run(s: State, actions: seq<Action>): Option<State>
    decreases |actions|
  {
    if actions == [] then Some(s)
    else
      var s' := Step(s, actions[0]);
      if s'.None? then None else Run(s'.value, actions[1..])
  }

  function Batch(s: State): seq<Functor>
  {
    if s.phase.Running? then s.phase.batch else []
  }

  /** loop() has just been entered; other threads may be anywhere. */
  predicate Entered(s: State)
  {
    && s.phase == Checking && !s.calling && !s.quit && !s.loopOwes
    && s.ran == [] && s.pushed == s.pending && s.mark == 0
  }

  // ---- what holds in every reachable state ----

  /** A wakeup is written or still to be written. */
  predicate Announced(s: State)
  {
    s.counter > 0 || s.owing != {} || s.loopOwes
  }

  /** No lost wakeup: from the swap to the next return of epoll_wait, waiting functors are announced. */
  predicate NoLostWakeup(s: State)
  {
    (s.phase == Checking || s.phase == Polling || s.phase.Running?) && s.pending != [] ==> Announced(s)
  }

  /** The queue is a queue: what ran, what is left of the batch and what waits are all pushes, in order, once. */
  predicate Fifo(s: State)
  {
    s.pushed == s.ran + Batch(s) + s.pending
  }

  /** The batch holds exactly the pushes up to the swap; outside it, exactly those have run. */
  predicate BatchIsPrefix(s: State)
  {
    |s.ran| + |Batch(s)| == s.mark
  }

  /** A loop told to quit does not sleep on it. */
  predicate NoLostQuit(s: State)
  {
    s.phase == Polling && s.quit ==> s.counter > 0 || s.owing != {}
  }

  predicate Inv(s: State)
  {
    && NoLostWakeup(s) && Fifo(s) && BatchIsPrefix(s) && NoLostQuit(s)
    && (s.calling <==> s.phase == Calling || s.phase.Running?)
    && (s.loopOwes ==> s.phase.Running? && s.phase.inside)
  }

  lemma StepKeepsFifo(s: State, a: Action)
    requires Fifo(s) && (s.phase.Running? || Batch(s) == []) && Step(s, a).Some?
    ensures Fifo(Step(s, a).value)
  {
    var s' := Step(s, a).value;
    if a.Push? || a.LoopPush? {
      assert s.ran + Batch(s) + (s.pending + [a.f]) == s.ran + Batch(s) + s.pending + [a.f];
    } else if a.Swap? {
      assert s.ran + [] + s.pending == s.ran + s.pending + [];
    } else if a.RunNext? {
      assert s.phase.batch == [s.phase.batch[0]] + s.phase.batch[1..];
      assert s.ran + s.phase.batch == s'.ran + s'.phase.batch;
    }
  }

  lemma StepKeepsInv(s: State, a: Action)
    requires Inv(s) && Step(s, a).Some?
    ensures Inv(Step(s, a).value)
  {
    StepKeepsFifo(s, a);
    hide Fifo;
    var s' := Step(s, a).value;
    if a.Push? { assert a.t in s'.owing; }
    if a.Quit? { assert a.t in s'.owing; }
    assert a.Swap? ==> |s.pushed| == |s.ran| + |s.pending| by { SwapCount(s); }
  }

  lemma SwapCount(s: State)
    requires Fifo(s)
    ensures |s.pushed| == |s.ran| + |Batch(s)| + |s.pending|
  {
  }

  lemma {:induction false} RunKeepsInv(s: State, actions: seq<Action>)
    requires Inv(s) && Run(s, actions).Some?
    ensures Inv(Run(s, actions).value)
    decreases |actions|
  {
    hide Step, Inv;
    if actions != [] {
      StepKeepsInv(s, actions[0]);
      RunKeepsInv(Step(s, actions[0]).value, actions[1..]);
    }
  }

  /** In epoll_wait with nothing to wake it, although a functor is waiting. */
  predicate SleepsOnWork(s: State)
  {
    s.phase == Polling && s.counter == 0 && s.owing == {} && s.pending != []
  }

  predicate LeadsToSleep(s: State, actions: seq<Action>)
  {
    Run(s, actions).Some? && SleepsOnWork(Run(s, actions).value)
  }

  /** Exactly the entry condition that is needed: with functors queued before loop() and no wakeup announced for
      them, the loop can go to sleep on them; otherwise no interleaving ever makes it sleep on a functor. */
  lemma NeverSleepsOnWorkExactlyWhen(s: State)
    requires Entered(s)
    ensures (forall actions :: !LeadsToSleep(s, actions)) <==> (s.pending == [] || Announced(s))
  {
    if s.pending == [] || Announced(s) {
      forall actions ensures !LeadsToSleep(s, actions) {
        if Run(s, actions).Some? { RunKeepsInv(s, actions); }
      }
    } else {
      var s' := s.(phase := Polling);
      assert Step(s, Check) == Some(s');
      var one := [Check];
      assert one[1..] == [] && Run(s', one[1..]) == Some(s');
      assert LeadsToSleep(s, one);
    }
  }

  /** Every functor pushed runs at most once, in lock order, none skipped; a functor queued while a batch runs stays
      for the next one. Over every interleaving, also when functors queue functors. */
  lemma RunsInOrder(s: State, actions: seq<Action>)
    requires Entered(s) && (s.pending == [] || Announced(s)) && Run(s, actions).Some?
    ensures var s' := Run(s, actions).value;
            && s'.pushed == s'.ran + Batch(s') + s'.pending && s'.mark <= |s'.pushed|
            && (!s'.phase.Running? ==> s'.ran == s'.pushed[..s'.mark])
            && (s'.phase.Running? ==> s'.ran + Batch(s') == s'.pushed[..s'.mark])
  {
    RunKeepsInv(s, actions);
    var s' := Run(s, actions).value;
    assert s'.pushed[..s'.mark] == s'.ran + Batch(s');
    assert Batch(s') == [] ==> s'.ran + Batch(s') == s'.ran;
  }

  /** When epoll_wait can sleep - nothing on the eventfd - and no thread is about to write to it, there is no functor
      waiting and no request to quit. */
  lemma SleepsOnlyWhenIdle(s: State, actions: seq<Action>)
    requires Entered(s) && (s.pending == [] || Announced(s)) && Run(s, actions).Some?
    ensures var s' := Run(s, actions).value;
            s'.phase == Polling && s'.counter == 0 && s'.owing == {} ==>
              s'.pending == [] && s'.ran == s'.pushed && !s'.quit
  {
    RunKeepsInv(s, actions);
    var s' := Run(s, actions).value;
    if s'.phase == Polling && s'.counter == 0 && s'.owing == {} {
      assert s'.ran + [] + [] == s'.ran;
    }
  }

  // ---- progress without the poll timeout ----

  /** What the loop thread does next when its callbacks call nothing; in epoll_wait only a readable eventfd counts. */
  function NextOfLoop(s: State): Option<Action>
  {
    if s.loopOwes then Some(LoopWake)
    else
      match s.phase
      case Checking => Some(Check)
      case Polling => if s.counter > 0 then Some(PollReturns(true)) else None
      case Dispatching(w) => if w then Some(ReadWakeup) else Some(BeginCalling)
      case Calling => Some(Swap)
      case Running(batch, inside) =>
        if inside then Some(FunctorReturns) else if batch != [] then Some(RunNext) else Some(EndCalling)
      case Left => None
  }

  /** The loop thread takes n steps on its own, never waiting for a timeout; it stops early where it would have to. */
  function Drive(s: State, n: nat): State
    decreases n
  {
    var a := NextOfLoop(s);
    if n == 0 || a.None? || Step(s, a.value).None? then s else Drive(Step(s, a.value).value, n - 1)
  }

  /** How far the loop is, at most, from having run everything that is queued now. */
  function Distance(s: State): nat
  {
    if s.pending == [] && Batch(s) == [] then 0
    else
      (if s.loopOwes then 1 else 0) +
      match s.phase
      case Running(batch, inside) =>
        2 * |batch| + (if inside then 1 else 0) + (if s.pending == [] then 0 else 1 + 6 + 2 * |s.pending|)
      case Checking => 6 + 2 * |s.pending|
      case Polling => 5 + 2 * |s.pending|
      case Dispatching(w) => (if w then 4 else 3) + 2 * |s.pending|
      case Calling => 2 + 2 * |s.pending|
      case Left => 0
  }

  lemma OneStepCloser(s: State)
    requires Inv(s) && s.owing == {} && !s.quit && s.phase != Left && Distance(s) > 0
    ensures NextOfLoop(s).Some? && Step(s, NextOfLoop(s).value).Some?
    ensures var s' := Step(s, NextOfLoop(s).value).value;
            && Inv(s') && s'.owing == {} && !s'.quit && s'.phase != Left
            && s'.pushed == s.pushed && Distance(s') < Distance(s)
  {
    StepKeepsInv(s, NextOfLoop(s).value);
  }

  /** From every reachable state of a loop that is not quitting, once the owed wakeups are written, the loop thread
      alone runs everything queued so far in a bounded number of steps, and no step is a poll timeout. */
  lemma {:induction false} RunsEverythingQueued(s: State)
    requires Inv(s) && s.owing == {} && !s.quit && s.phase != Left
    ensures Drive(s, Distance(s)).ran == s.pushed
    decreases Distance(s)
  {
    if Distance(s) == 0 {
      assert s.ran + [] + [] == s.ran;
    } else {
      OneStepCloser(s);
      var s' := Step(s, NextOfLoop(s).value).value;
      RunsEverythingQueued(s');
      DriveSettles(s', Distance(s'), Distance(s) - 1);
    }
  }

  /** Once everything has run, driving on changes nothing in what has run. */
  lemma {:induction false} DriveSettles(s: State, m: nat, n: nat)
    requires m <= n && Inv(s) && Drive(s, m).ran == s.pushed
    ensures Drive(s, n).ran == s.pushed
    decreases n
  {
    if n > 0 && NextOfLoop(s).Some? && Step(s, NextOfLoop(s).value).Some? {
      var s' := Step(s, NextOfLoop(s).value).value;
      StepKeepsInv(s, NextOfLoop(s).value);
      assert s'.pushed == s.pushed;
      if m == 0 {
        assert |s'.ran| >= |s.ran| && |s'.pushed| == |s'.ran + Batch(s') + s'.pending|;
        DriveSettles(s', 0, n - 1);
      } else {
        DriveSettles(s', m - 1, n - 1);
      }
    }
  }

  // ---- rest ----

  /** In epoll_wait with nothing readable and nothing to do: the loop sleeps until somebody calls it. */
  predicate Resting(s: State)
  {
    s.phase == Polling && s.counter == 0 && s.pending == [] && !s.loopOwes
  }

  /** How many steps an undisturbed loop takes before it rests. From a wakeup it goes round once; functors queued during
      a round, and a wakeup written during it, take it round once more. */
  function StepsToRest(s: State): nat
  {
    (if s.loopOwes then 1 else 0) +
    match s.phase
    case Polling => Round(s.counter > 0, s.pending)
    case Checking => 1 + Round(s.counter > 0, s.pending)
    case Dispatching(true) => 5 + 2 * |s.pending|
    case Dispatching(false) => 4 + 2 * |s.pending| + Round(s.counter > 0, [])
    case Calling => 3 + 2 * |s.pending| + Round(s.counter > 0, [])
    case Running(batch, inside) =>
      2 * |batch| + (if inside then 1 else 0) + 2 + Round(s.counter > 0 || s.loopOwes, s.pending)
    case Left => 0
  }

  function Round(readable: bool, pending: seq<Functor>): nat
  {
    if readable then 6 + 2 * |pending| else 0
  }

  lemma OneStepToRest(s: State)
    requires Inv(s) && s.owing == {} && !s.quit && s.phase != Left && !Resting(s)
    ensures NextOfLoop(s).Some? && Step(s, NextOfLoop(s).value).Some?
    ensures var s' := Step(s, NextOfLoop(s).value).value;
            && Inv(s') && s'.owing == {} && !s'.quit && s'.phase != Left
            && s'.pushed == s.pushed && StepsToRest(s) == StepsToRest(s') + 1
  {
    hide Fifo;
    StepKeepsInv(s, NextOfLoop(s).value);
  }

  /** From every reachable state, left alone and not told to quit, the loop runs everything queued and comes to rest: it
      sleeps in epoll_wait with the eventfd drained, and nothing is left for it to do. */
  lemma {:induction false} ComesToRest(s: State)
    requires Inv(s) && s.owing == {} && !s.quit && s.phase != Left
    ensures var t := Drive(s, StepsToRest(s));
            && t.phase == Polling && t.counter == 0 && t.pending == [] && t.ran == s.pushed && NextOfLoop(t) == None
    decreases StepsToRest(s)
  {
    if Resting(s) {
      assert s.ran + [] + [] == s.ran;
    } else {
      OneStepToRest(s);
      ComesToRest(Step(s, NextOfLoop(s).value).value);
    }
  }

  // ---- what a run has been asked to do ----

  /** The functors queued in a run, in lock order. */
  function Pushes(actions: seq<Action>): seq<Functor>
  {
    if actions == [] then []
    else (if actions[0].Push? || actions[0].LoopPush? then [actions[0].f] else []) + Pushes(actions[1..])
  }

  predicate AsksToQuit(actions: seq<Action>)
  {
    exists a :: a in actions && (a.Quit? || a.LoopQuit?)
  }

  lemma PushedOne(s: State, a: Action)
    requires Step(s, a).Some?
    ensures Step(s, a).value.pushed == s.pushed + if a.Push? || a.LoopPush? then [a.f] else []
    ensures Step(s, a).value.quit <==> s.quit || a.Quit? || a.LoopQuit?
  {
  }

  /** In every run what counts as pushed is what the calls of queueInLoop have pushed, and the loop is told to quit
      exactly by the calls of quit. */
  lemma {:induction false} RunRecords(s: State, actions: seq<Action>)
    requires Run(s, actions).Some?
    ensures Run(s, actions).value.pushed == s.pushed + Pushes(actions)
    ensures Run(s, actions).value.quit <==> s.quit || AsksToQuit(actions)
    decreases |actions|
  {
    if actions != [] {
      PushedOne(s, actions[0]);
      hide Step;
      var s' := Step(s, actions[0]).value;
      RunRecords(s', actions[1..]);
      assert s.pushed + Pushes(actions) == s'.pushed + Pushes(actions[1..]);
      assert actions == [actions[0]] + actions[1..];
      assert AsksToQuit(actions) <==> actions[0].Quit? || actions[0].LoopQuit? || AsksToQuit(actions[1..]);
    } else {
      assert s.pushed + [] == s.pushed;
    }
  }

  /** How many steps a loop told to quit takes before it has left: it finishes the round it is in. */
  function StepsToLeave(s: State): nat
  {
    (if s.loopOwes then 1 else 0) +
    match s.phase
    case Left => 0
    case Checking => 1
    case Polling => 6 + 2 * |s.pending|
    case Dispatching(w) => (if w then 5 else 4) + 2 * |s.pending|
    case Calling => 3 + 2 * |s.pending|
    case Running(batch, inside) => 2 * |batch| + (if inside then 1 else 0) + 2
  }

  lemma OneStepToLeave(s: State)
    requires Inv(s) && s.owing == {} && s.quit && s.phase != Left
    ensures NextOfLoop(s).Some? && Step(s, NextOfLoop(s).value).Some?
    ensures var s' := Step(s, NextOfLoop(s).value).value;
            Inv(s') && s'.owing == {} && s'.quit && StepsToLeave(s) == StepsToLeave(s') + 1
  {
    hide Fifo;
    StepKeepsInv(s, NextOfLoop(s).value);
  }

  lemma {:induction false} Leaves(s: State)
    requires Inv(s) && s.owing == {} && s.quit
    ensures Drive(s, StepsToLeave(s)).phase == Left
    decreases StepsToLeave(s)
  {
    if s.phase != Left {
      OneStepToLeave(s);
      Leaves(Step(s, NextOfLoop(s).value).value);
    }
  }

  /** Once a run has asked the loop to quit, and the wakeups owed are written, the loop thread alone leaves the loop in
      bounded steps, without a poll timeout; and it has never left in a run that did not ask. */
  lemma QuitIsObeyed(s: State, actions: seq<Action>)
    requires Entered(s) && (s.pending == [] || Announced(s)) && Run(s, actions).Some?
    ensures var t := Run(s, actions).value;
            && (AsksToQuit(actions) && t.owing == {} ==> Drive(t, StepsToLeave(t)).phase == Left)
            && (t.phase == Left ==> AsksToQuit(actions))
  {
    RunKeepsInv(s, actions);
    RunRecords(s, actions);
    LeftOnlyWhenAsked(s, actions);
    var t := Run(s, actions).value;
    if t.quit && t.owing == {} { Leaves(t); }
  }

  lemma {:induction false} LeftOnlyWhenAsked(s: State, actions: seq<Action>)
    requires Run(s, actions).Some? && (s.phase == Left ==> s.quit)
    ensures Run(s, actions).value.phase == Left ==> Run(s, actions).value.quit
    decreases |actions|
  {
    if actions != [] {
      var s' := Step(s, actions[0]).value;
      assert s'.phase == Left ==> s'.quit;
      hide Step;
      LeftOnlyWhenAsked(s', actions[1..]);
    }
  }
}
