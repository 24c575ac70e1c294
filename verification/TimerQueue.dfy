/** The timer queue of a loop: two indexes over shared, mutable timers, and one timerfd for the earliest of them. The
    class keeps the state of TimerSpec as its model; every method is a run of TimerSpec steps. */
module TimerQueue {
  import opened Wrappers
  import opened TimerSpec
  import opened TimerClock
  import opened TimerArming

  /** A timer object. The sequence number comes from a process-wide counter. */
  class Timer {
    var expiredTime: int
    const interval: int
    const repeat: bool
    const sequence: nat

    constructor (timeout: int, interval: int, sequence: nat)
      ensures expiredTime == timeout && this.interval == interval && this.sequence == sequence
      ensures repeat == (interval > 0)
    {
      expiredTime := timeout;
      this.interval := interval;
      this.sequence := sequence;
      repeat := interval > 0;
    }

    method Restart(now: int)
      modifies this
      ensures expiredTime == if repeat then now + interval else 0
    {
      expiredTime := if repeat then now + interval else 0;
    }
  }

  type Entry = (int, Timer)
  type ActiveTimer = (Timer, nat)

  predicate IsFirst(timers: set<Entry>, e: Entry)
  {
    e in timers && forall x :: x in timers ==> e.0 <= x.0
  }

  lemma {:induction false} FirstExists(timers: set<Entry>)
    requires timers != {}
    ensures exists e :: IsFirst(timers, e)
    decreases |timers|
  {
    var x :| x in timers;
    var rest := timers - {x};
    if rest == {} {
      assert timers == {x};
      assert IsFirst(timers, x);
    } else {
      FirstExists(rest);
      var e :| IsFirst(rest, e);
      assert IsFirst(timers, if x.0 < e.0 then x else e);
    }
  }

  function TimersOf(entries: seq<Entry>): (ts: seq<Timer>)
    ensures |ts| == |entries| && forall i :: 0 <= i < |ts| ==> ts[i] == entries[i].1
  {
    seq(|entries|, i requires 0 <= i < |entries| => entries[i].1)
  }

  /** Both indexes hold exactly the timers of queue: the first under their expiry, the second under their own
      sequence number. */
  ghost predicate Indexed(timers: set<Entry>, active: set<ActiveTimer>, queue: map<Timer, int>)
  {
    && (forall e :: e in timers ==> e.1 in queue && e.0 == queue[e.1])
    && (forall t :: t in queue ==> (queue[t], t) in timers)
    && (forall a :: a in active ==> a.0 in queue && a.1 == a.0.sequence)
    && (forall t :: t in queue ==> (t, t.sequence) in active)
  }

  ghost function Sequenced(ts: set<Timer>): set<ActiveTimer>
  {
    set t | t in ts :: (t, t.sequence)
  }

  lemma SequencedPlus(ts: set<Timer>, t: Timer)
    ensures Sequenced(ts + {t}) == Sequenced(ts) + {(t, t.sequence)}
  {
  }

  lemma InsertIndexed(timers: set<Entry>, active: set<ActiveTimer>, queue: map<Timer, int>, t: Timer, when: int)
    requires Indexed(timers, active, queue) && t !in queue
    ensures (when, t) !in timers && (t, t.sequence) !in active
    ensures Indexed(timers + {(when, t)}, active + {(t, t.sequence)}, queue[t := when])
  {
  }

  lemma EraseIndexed(timers: set<Entry>, active: set<ActiveTimer>, queue: map<Timer, int>, t: Timer)
    requires Indexed(timers, active, queue)
    ensures (t, t.sequence) in active <==> t in queue
    ensures t in queue ==> (queue[t], t) in timers
    ensures t in queue ==> Indexed(timers - {(queue[t], t)}, active - {(t, t.sequence)}, queue - {t})
    ensures t !in queue ==> queue - {t} == queue
  {
  }

  /** The size assertions of the source: both sets have as many elements as there are waiting timers. */
  lemma SameSize(timers: set<Entry>, active: set<ActiveTimer>, queue: map<Timer, int>)
    requires Indexed(timers, active, queue)
    ensures |timers| == |active| == |queue|
    decreases |queue|
  {
    if queue == map[] {
      assert timers == {} && active == {};
    } else {
      var t :| t in queue;
      EraseIndexed(timers, active, queue, t);
      SameSize(timers - {(queue[t], t)}, active - {(t, t.sequence)}, queue - {t});
      assert queue.Keys == (queue - {t}).Keys + {t};
    }
  }

  lemma FirstIsLeast(timers: set<Entry>, active: set<ActiveTimer>, queue: map<Timer, int>, e: Entry)
    requires Indexed(timers, active, queue) && IsFirst(timers, e)
    ensures e.1 in queue && queue[e.1] == e.0 && forall t :: t in queue ==> e.0 <= queue[t]
  {
    forall t | t in queue ensures e.0 <= queue[t] {
      assert (queue[t], t) in timers;
    }
  }

  class TimerQueue {
    var timers: set<Entry>
    var activeTimers: set<ActiveTimer>
    var callingExpiredTimers: bool
    var cancelingTimers: set<ActiveTimer>
    var timerfd: Option<Armed>       // None: not armed, and read since it last fired
    var calls: seq<Timer>            // the timers whose callbacks have been called, in order
    var issued: set<Timer>           // the timers for which a TimerId has been given out
    ghost var model: State<Timer>

    /** Index agreement for the timers of queue, which carry their current expiry. */
    ghost predicate Agrees(queue: map<Timer, int>)
      reads this, queue.Keys
    {
      Indexed(timers, activeTimers, queue) && forall t :: t in queue ==> t.expiredTime == queue[t]
    }

    /** The fields tell the same as the model s. */
    ghost predicate Shows(s: State<Timer>)
      reads this, s.period.Keys
    {
      && Inv(s)
      && (forall t :: t in s.queue ==> t in s.period) && Agrees(s.queue)
      && issued == s.period.Keys
      && (forall t :: t in s.period ==> t.interval == s.period[t] && t.repeat == (t.interval > 0))
      && cancelingTimers == Sequenced(s.canceling)
    }

    ghost predicate Valid()
      reads this, model.period.Keys
    {
      Shows(model) && callingExpiredTimers == model.calling
    }

    constructor ()
      ensures Valid() && model == Initial<Timer>() && timerfd == None && calls == []
    {
      timers, activeTimers, cancelingTimers, issued := {}, {}, {}, {};
      callingExpiredTimers, timerfd, calls := false, None, [];
      model := Initial<Timer>();
    }

    /** Puts a timer that is in neither index into both; tells whether it is now strictly the earliest. */
    method Insert(t: Timer, ghost queue: map<Timer, int>) returns (isEarliest: bool)
      requires Agrees(queue) && t !in queue
      modifies this`timers, this`activeTimers
      ensures Agrees(queue[t := t.expiredTime])
      ensures isEarliest <==> forall u :: u in queue ==> t.expiredTime < queue[u]
    {
      hide Indexed;
      SameSize(timers, activeTimers, queue);
      isEarliest := IsEarliest(t.expiredTime, queue);
      InsertIndexed(timers, activeTimers, queue, t, t.expiredTime);
      assert (t.expiredTime, t) !in timers && (t, t.sequence) !in activeTimers;
      timers := timers + {(t.expiredTime, t)};
      activeTimers := activeTimers + {(t, t.sequence)};
      SameSize(timers, activeTimers, queue[t := t.expiredTime]);
    }

    method IsEarliest(when: int, ghost queue: map<Timer, int>) returns (isEarliest: bool)
      requires Indexed(timers, activeTimers, queue)
      ensures isEarliest <==> forall u :: u in queue ==> when < queue[u]
    {
      if timers == {} {
        isEarliest := true;
      } else {
        FirstExists(timers);
        var first :| IsFirst(timers, first);
        FirstIsLeast(timers, activeTimers, queue, first);
        isEarliest := when < first.0;
      }
    }

    /** insert for a new timer, and the model along with it. */
    method Admit(t: Timer) returns (isEarliest: bool)
      requires Valid() && t !in model.period && t.repeat == (t.interval > 0)
      modifies this`timers, this`activeTimers, this`issued, this`model
      ensures Valid() && model == Step(old(model), Add(t, t.expiredTime, t.interval))
      ensures isEarliest <==> forall u :: u in old(model.queue) ==> t.expiredTime < old(model.queue)[u]
    {
      hide Inv, Indexed, Sequenced, Fires;
      StepKeepsInv(model, Add(t, t.expiredTime, t.interval));
      InvShape(model);
      isEarliest := Insert(t, model.queue);
      issued := issued + {t};
      model := Step(model, Add(t, t.expiredTime, t.interval));
    }

    method AddTimerInLoop(t: Timer, clock: int)
      requires Valid() && t !in model.period && t.repeat == (t.interval > 0)
      modifies this
      ensures Valid() && model == Step(old(model), Add(t, t.expiredTime, t.interval))
      ensures timerfd == ArmStep(old(timerfd), old(model), Add(t, t.expiredTime, t.interval), Clocks(clock, clock))
      ensures calls == old(calls)
      ensures model.queue == old(model.queue)[t := t.expiredTime]
      ensures timerfd == if forall u :: u in old(model.queue) ==> t.expiredTime < old(model.queue)[u]
                         then Some(Armed(clock, Max(t.expiredTime, clock + 100))) else old(timerfd)
      ensures TimerArming.OnTime(old(timerfd), old(model.queue)) ==> TimerArming.OnTime(timerfd, model.queue)
    {
      hide Inv, Indexed, Sequenced, Arm, InTime, Restarted, Fires;
      InvShape(model);
      ArmDeadline(clock, t.expiredTime);
      StepKeepsOnTime(timerfd, model, Add(t, t.expiredTime, t.interval), Clocks(clock, clock));
      var isEarliest := Admit(t);
      if isEarliest {
        timerfd := Some(Arm(clock, t.expiredTime));
      }
    }

    /** Takes a timer out of both indexes if it is there. */
    method Erase(t: Timer, ghost queue: map<Timer, int>) returns (found: bool)
      requires Agrees(queue)
      modifies this`timers, this`activeTimers
      ensures Agrees(queue - {t}) && found == (t in queue)
    {
      hide Indexed;
      SameSize(timers, activeTimers, queue);
      EraseIndexed(timers, activeTimers, queue, t);
      found := (t, t.sequence) in activeTimers;
      if found {
        assert (t.expiredTime, t) in timers;
        timers := timers - {(t.expiredTime, t)};
        activeTimers := activeTimers - {(t, t.sequence)};
      }
      SameSize(timers, activeTimers, queue - {t});
    }

    method CancelInLoop(t: Timer)
      requires Valid() && t in model.period
      modifies this
      ensures Valid() && model == Step(old(model), Cancel(t)) && timerfd == old(timerfd) && calls == old(calls)
      ensures TimerArming.OnTime(old(timerfd), old(model.queue)) ==> TimerArming.OnTime(timerfd, model.queue)
    {
      hide Inv, Indexed, Sequenced;
      InvShape(model);
      StepKeepsOnTime(timerfd, model, Cancel(t), Clocks(0, 0));
      StepKeepsInv(model, Cancel(t));
      var found := Erase(t, model.queue);
      if !found && callingExpiredTimers {
        SequencedPlus(model.canceling, t);
        cancelingTimers := cancelingTimers + {(t, t.sequence)};
      }
      model := Step(model, Cancel(t));
    }

    /** Moves the timers that expire before now out of both indexes, earliest first. holds is the value of the
        assertion on line 169: it fails exactly when some timer expires at now itself. */
    method GetExpired(now: int) returns (expired: seq<Entry>, holds: bool)
      requires Agrees(model.queue)
      modifies this`timers, this`activeTimers
      ensures IsExpiredList(model.queue, now, TimersOf(expired))
      ensures forall t :: t in model.queue ==> (t in TimersOf(expired) <==> model.queue[t] < now)
      ensures Agrees(model.queue - (set t | t in TimersOf(expired)))
      ensures holds <==> forall t :: t in model.queue ==> model.queue[t] != now
    {
      hide Indexed, IsExpiredList;
      ghost var queue := model.queue;
      expired := [];
      NothingExpired(model.queue, now);
      holds := AssertionHolds(now, model.queue);
      SameSize(timers, activeTimers, queue);
      while exists e :: e in timers && e.0 < now
        invariant queue == model.queue - (set t | t in TimersOf(expired)) && Agrees(queue)
        invariant PartlyExpired(model.queue, queue, now, TimersOf(expired))
        decreases |timers|
      {
        FirstExists(timers);
        var first :| IsFirst(timers, first);
        FirstIsLeast(timers, activeTimers, queue, first);
        ghost var before := |timers|;
        TakeNext(model.queue, queue, now, expired, first);
        SameSize(timers, activeTimers, queue);
        var found := Erase(first.1, queue);
        SmallerQueue(queue, first.1);
        queue := queue - {first.1};
        expired := expired + [first];
        SameSize(timers, activeTimers, queue);
        assert found;
      }
      NoneLeft(timers, activeTimers, queue, now);
      AllExpired(model.queue, queue, now, TimersOf(expired));
      ExpiredMeans(model.queue, now, TimersOf(expired));
    }

    method AssertionHolds(now: int, ghost queue: map<Timer, int>) returns (holds: bool)
      requires Indexed(timers, activeTimers, queue)
      ensures holds <==> forall t :: t in queue ==> queue[t] != now
    {
      holds := !exists e :: e in timers && e.0 == now;
      if e :| e in timers && e.0 == now {
        assert queue[e.1] == now;
      } else {
        forall t | t in queue ensures queue[t] != now {
          assert (queue[t], t) in timers;
        }
      }
    }

    /** The loop of reset: restarts and re-inserts the periodic timers of the batch that have not been cancelled. */
    method Reinsert(expired: seq<Entry>, now: int)
      requires Shows(model) && Enabled(model, Action<Timer>.Reset) && model.ran == TimersOf(expired) && now == model.now
      modifies this`timers, this`activeTimers, set t | t in TimersOf(expired)
      ensures Agrees(Step(model, Action<Timer>.Reset).queue)
    {
      hide Inv, Indexed, TimerInv, RestartedOf, Step, Sequenced;
      InvShape(model);
      ghost var queue := model.queue;
      RestartedNone(model);
      var i := 0;
      while i < |expired|
        invariant 0 <= i <= |expired|
        invariant queue == model.queue + RestartedOf(model, i) && Agrees(queue)
      {
        var t := expired[i].1;
        assert t == model.ran[i] && t in model.ran;
        RestartedNext(model, i);
        SequencedIn(model.canceling, t);
        if t.repeat && (t, t.sequence) !in cancelingTimers {
          t.Restart(now);
          var isEarliest := Insert(t, queue);
          queue := queue[t := t.expiredTime];
        }
        i := i + 1;
      }
      RestartedAll(model);
    }

    /** The end of reset: sets the timerfd for the earliest timer - unless that one is already past at validAt. */
    method ArmEarliest(validAt: int, armAt: int, ghost queue: map<Timer, int>)
      requires Agrees(queue)
      modifies this`timerfd
      ensures Agrees(queue)
      ensures timerfd == if queue != map[] && NonePast(queue, validAt) then Some(Arm(armAt, Least(queue)))
                         else old(timerfd)
    {
      hide Indexed, Arm, Least;
      EmptyQueue(timers, activeTimers, queue);
      if timers != {} {
        FirstExists(timers);
        var first :| IsFirst(timers, first);
        FirstIsLeast(timers, activeTimers, queue, first);
        assert IsLeast(queue, first.1);
        LeastIs(queue, first.1);
        if first.1.expiredTime >= validAt {
          timerfd := Some(Arm(armAt, first.1.expiredTime));
        }
      }
    }

    method Reset(expired: seq<Entry>, now: int, validAt: int, armAt: int)
      requires Shows(model) && Enabled(model, Action<Timer>.Reset) && model.ran == TimersOf(expired) && now == model.now
      modifies this`timers, this`activeTimers, this`timerfd, set t | t in TimersOf(expired)
      ensures Agrees(Step(model, Action<Timer>.Reset).queue)
      ensures timerfd == ArmStep(old(timerfd), model, Action<Timer>.Reset, Clocks(validAt, armAt))
      ensures var q := Step(model, Action<Timer>.Reset).queue;
              if q != map[] && (forall t :: t in q ==> q[t] >= validAt)
              then timerfd.Some? && timerfd.value.setAt == armAt && IsDueFor(timerfd.value, q)
              else timerfd == old(timerfd)
    {
      hide Inv, Indexed, Step, NonePast, Arm, Least;
      SetForLeast(timerfd, model, Action<Timer>.Reset, Clocks(validAt, armAt));
      Reinsert(expired, now);
      ArmEarliest(validAt, armAt, Step(model, Action<Timer>.Reset).queue);
    }

    /** A callback may add timers and cancel any timer whose id has been given out, as often as it likes. steps lists
        what it did. */
    method CallbackBody() returns (ghost steps: seq<Action<Timer>>, ghost clocks: seq<Clocks>)
      requires Valid()
      modifies this
      ensures Valid() && TimerSpec.Valid(old(model), steps) && model == Run(old(model), steps)
      ensures forall a :: a in steps ==> a.Add? || a.Cancel?
      ensures |clocks| == |steps| && timerfd == ArmRun(old(timerfd), old(model), steps, clocks)
      ensures calls == old(calls)
      ensures model.calling == old(model).calling && model.batch == old(model).batch && model.ran == old(model).ran
      ensures model.now == old(model).now && fresh(model.period.Keys - old(model.period.Keys))
      ensures old(model).period.Keys <= model.period.Keys
    {
      hide Shows, Inv, ArmStep, ArmRun;
      var n: nat := *;
      steps, clocks := [], [];
      Empty(timerfd, model);
      ghost var start := model;
      while n > 0
        invariant Valid() && TimerSpec.Valid(start, steps) && model == Run(start, steps)
        invariant forall a :: a in steps ==> a.Add? || a.Cancel?
        invariant |clocks| == |steps| && timerfd == ArmRun(old(timerfd), start, steps, clocks)
        invariant model.calling == start.calling && model.batch == start.batch && model.ran == start.ran
        invariant model.now == start.now && fresh(model.period.Keys - old(model.period.Keys))
        invariant calls == old(calls)
        invariant start.period.Keys <= model.period.Keys
      {
        ghost var before, a, tick := steps, Action<Timer>.Reset, Clocks(0, 0);
        var adds: bool := *;
        if adds || issued == {} {
          var timeout: int := *;
          var interval: int := *;
          var sequence: nat := *;
          var clock: int := *;
          var t := new Timer(timeout, interval, sequence);
          a, tick := Add(t, timeout, interval), Clocks(clock, clock);
          RunAppend(start, steps, a);
          ArmRunAppend(old(timerfd), start, steps, clocks, a, tick);
          AddTimerInLoop(t, clock);
        } else {
          var t :| t in issued;
          IssuedKnown();
          a := Cancel(t);
          RunAppend(start, steps, a);
          ArmRunAppend(old(timerfd), start, steps, clocks, a, tick);
          ArmUnchanged(timerfd, model, a, tick);
          CancelInLoop(t);
        }
        steps, clocks := steps + [a], clocks + [tick];
        assert steps[|before|] == a && a in steps;
        assert forall b :: b in before ==> b in steps;
        n := n - 1;
      }
    }

    /** The callback of timer is called. */
    method RunCallback(timer: Timer) returns (ghost steps: seq<Action<Timer>>, ghost clocks: seq<Clocks>)
      requires Valid()
      modifies this
      ensures Valid() && TimerSpec.Valid(old(model), steps) && model == Run(old(model), steps)
      ensures forall a :: a in steps ==> a.Add? || a.Cancel?
      ensures |clocks| == |steps| && timerfd == ArmRun(old(timerfd), old(model), steps, clocks)
      ensures calls == old(calls) + [timer]
      ensures model.calling == old(model).calling && model.batch == old(model).batch && model.ran == old(model).ran
      ensures model.now == old(model).now && fresh(model.period.Keys - old(model.period.Keys))
      ensures old(model).period.Keys <= model.period.Keys
    {
      calls := calls + [timer];
      steps, clocks := CallbackBody();
    }

    lemma IssuedKnown()
      requires Valid()
      ensures issued == model.period.Keys
    {
    }

    /** The next callback of the batch is called: recorded in the model only. */
    ghost method FireNext()
      requires Valid() && Enabled(model, Action<Timer>.Fire)
      modifies this`model
      ensures Valid() && model == Step(old(model), Action<Timer>.Fire)
    {
      hide Inv, Indexed, Sequenced, Fires;
      StepKeepsInv(model, Action<Timer>.Fire);
      model := Step(model, Action<Timer>.Fire);
    }

    method StopCalling()
      requires Shows(model)
      modifies this`callingExpiredTimers
      ensures Shows(model) && !callingExpiredTimers
    {
      callingExpiredTimers := false;
    }

    lemma BatchKnown()
      requires Shows(model)
      ensures forall t :: t in model.batch || t in model.ran ==> t in model.period
    {
      InvShape(model);
    }

    /** The first half of handleRead: takes the expired timers out of the queue and opens the batch. */
    method OpenBatch(now: int) returns (expired: seq<Entry>, holds: bool, ghost opening: Action<Timer>)
      requires Valid() && !model.calling
      modifies this
      ensures Valid() && timerfd == None && calls == old(calls)
      ensures opening == Expire(now, TimersOf(expired))
      ensures Enabled(old(model), opening) && model == Step(old(model), opening)
      ensures holds <==> forall t :: t in old(model.queue) ==> old(model.queue)[t] != now
      ensures forall t :: t in TimersOf(expired) ==> t in old(model.period)
      ensures forall t :: t in old(model.queue) ==> (t in TimersOf(expired) <==> old(model.queue)[t] < now)
    {
      hide Inv, Indexed, IsExpiredList, Sequenced;
      timerfd := None;
      expired, holds := GetExpired(now);
      opening := Expire(now, TimersOf(expired));
      StepKeepsInv(model, opening);
      model := Step(model, opening);
      SequencedNone();
      callingExpiredTimers := true;
      cancelingTimers := {};
      BatchKnown();
    }

    /** Runs the callbacks of the batch, in order. */
    method RunBatch(expired: seq<Entry>) returns (ghost steps: seq<Action<Timer>>, ghost clocks: seq<Clocks>)
      requires Valid() && model.calling && model.batch == TimersOf(expired) && model.ran == []
      modifies this
      ensures Valid() && TimerSpec.Valid(old(model), steps) && model == Run(old(model), steps)
      ensures Enabled(model, Action<Timer>.Reset) && model.ran == TimersOf(expired) && model.now == old(model).now
      ensures |clocks| == |steps| && timerfd == ArmRun(old(timerfd), old(model), steps, clocks)
      ensures forall a :: a in steps ==> a.Add? || a.Cancel? || a.Fire?
      ensures calls == old(calls) + TimersOf(expired)
      ensures old(model).period.Keys <= model.period.Keys && fresh(model.period.Keys - old(model.period.Keys))
    {
      hide Inv, Shows, Fires, ArmStep, ArmRun;
      ghost var start := model;
      ghost var all := TimersOf(expired);
      steps, clocks := [], [];
      Empty(timerfd, model);
      var i := 0;
      while i < |expired|
        invariant 0 <= i <= |expired| && calls == old(calls) + all[..i]
        invariant Valid() && TimerSpec.Valid(start, steps) && model == Run(start, steps)
        invariant model.calling && model.batch == all[i..] && model.ran == all[..i] && model.now == start.now
        invariant |clocks| == |steps| && timerfd == ArmRun(old(timerfd), start, steps, clocks)
        invariant forall a :: a in steps ==> a.Add? || a.Cancel? || a.Fire?
        invariant start.period.Keys <= model.period.Keys && fresh(model.period.Keys - old(model.period.Keys))
      {
        ghost var before, fire := steps, Action<Timer>.Fire;
        RunAppend(start, before, fire);
        ArmRunAppend(old(timerfd), start, before, clocks, fire, Clocks(0, 0));
        ArmUnchanged(timerfd, model, fire, Clocks(0, 0));
        assert all[..i + 1] == all[..i] + [all[i]] && all[i..][1..] == all[i + 1..];
        FireNext();
        ghost var called, ticks := RunCallback(expired[i].1);
        RunConcat(start, before + [fire], called);
        ArmRunConcat(old(timerfd), start, before + [fire], clocks + [Clocks(0, 0)], called, ticks);
        steps, clocks := before + [fire] + called, clocks + [Clocks(0, 0)] + ticks;
        i := i + 1;
      }
      assert all[i..] == [] && all[..i] == all;
      BatchKnown();
    }

    /** The timerfd has become readable: now is the time read at the start, validAt and armAt the times read while
        re-arming. What happened is the expiry of the batch, called - its callbacks with everything they added and
        cancelled - and the re-insertion of periodic timers. holds is the assertion on line 169. Afterwards the queue is
        armed in time exactly when it is empty, when none of its timers is past, or when the callbacks have set the
        timerfd in time for the timers that are re-inserted. */
    method HandleRead(now: int, validAt: int, armAt: int)
      returns (holds: bool, ghost order: seq<Timer>, ghost called: seq<Action<Timer>>, ghost clocks: seq<Clocks>)
      requires Valid() && !model.calling
      modifies this, model.period.Keys
      ensures Valid() && !model.calling
      ensures holds <==> forall t :: t in old(model.queue) ==> old(model.queue)[t] != now
      ensures forall t :: t in old(model.queue) ==> (t in order <==> old(model.queue)[t] < now)
      ensures calls == old(calls) + order
      ensures Enabled(old(model), Expire(now, order)) && |clocks| == |called|
      ensures forall a :: a in called ==> a.Add? || a.Cancel? || a.Fire?
      ensures var s1 := Step(old(model), Expire(now, order));
              && TimerSpec.Valid(s1, called) && Enabled(Run(s1, called), Action<Timer>.Reset)
              && model == Step(Run(s1, called), Action<Timer>.Reset)
      ensures var s1 := Step(old(model), Expire(now, order));
              var s2, armed := Run(s1, called), ArmRun(None, s1, called, clocks);
              && timerfd == ArmStep(armed, s2, Action<Timer>.Reset, Clocks(validAt, armAt))
              && (TimerArming.OnTime(timerfd, model.queue)
                  <==> model.queue == map[] || NonePast(model.queue, validAt)
                       || (armed.Some? && InTime(armed.value, Restarted(s2))))
    {
      hide Inv, Shows, Fires, IsExpiredList, NonePast, InTime, TimerArming.OnTime, ArmStep, ArmRun;
      BatchStart();
      ghost var start := model;
      var expired;
      ghost var opening;
      expired, holds, opening := OpenBatch(now);
      order := TimersOf(expired);
      called, clocks := RunBatch(expired);
      StopCalling();
      BatchOnTimeExactlyWhen(timerfd, start, now, order, called, clocks, Clocks(validAt, armAt));
      Close(expired, now, validAt, armAt);
    }

    lemma BatchStart()
      requires Valid()
      ensures Inv(model)
    {
    }

    /** reset, and the model along with it. */
    method Close(expired: seq<Entry>, now: int, validAt: int, armAt: int)
      requires Shows(model) && Enabled(model, Action<Timer>.Reset) && model.ran == TimersOf(expired) && now == model.now
      modifies this, set t | t in TimersOf(expired)
      ensures Shows(model) && model == Step(old(model), Action<Timer>.Reset)
      ensures callingExpiredTimers == old(callingExpiredTimers) && calls == old(calls)
      ensures timerfd == ArmStep(old(timerfd), old(model), Action<Timer>.Reset, Clocks(validAt, armAt))
    {
      hide Inv, Indexed, ArmStep, Sequenced, Restarted;
      StepKeepsInv(model, Action<Timer>.Reset);
      InvShape(Step(model, Action<Timer>.Reset));
      Reset(expired, now, validAt, armAt);
      model := Step(model, Action<Timer>.Reset);
    }

  }

  /** Some of the expired timers have been taken, in order; the rest of the queue expires no earlier. */
  ghost predicate PartlyExpired(all: map<Timer, int>, queue: map<Timer, int>, now: int, order: seq<Timer>)
  {
    && Distinct(order)
    && (forall t :: t in order ==> t in all && all[t] < now)
    && (forall i, j :: 0 <= i < j < |order| ==> all[order[i]] <= all[order[j]])
    && queue == all - (set t | t in order)
    && (forall t, u :: t in order && u in queue ==> all[t] <= queue[u])
  }

  lemma NothingExpired(all: map<Timer, int>, now: int)
    ensures PartlyExpired(all, all, now, TimersOf([])) && all == all - (set t | t in TimersOf([]))
  {
    assert TimersOf([]) == [];
    assert (set t: Timer | t in TimersOf([])) == {};
    assert all - {} == all;
  }

  lemma TakeNext(all: map<Timer, int>, queue: map<Timer, int>, now: int, expired: seq<Entry>, e: Entry)
    requires PartlyExpired(all, queue, now, TimersOf(expired))
    requires e.1 in queue && queue[e.1] == e.0 < now && forall t :: t in queue ==> e.0 <= queue[t]
    ensures PartlyExpired(all, queue - {e.1}, now, TimersOf(expired + [e]))
    ensures queue - {e.1} == all - (set t | t in TimersOf(expired + [e]))
  {
    var order := TimersOf(expired);
    assert TimersOf(expired + [e]) == order + [e.1];
    assert (set t | t in order + [e.1]) == (set t | t in order) + {e.1};
    assert forall i :: 0 <= i < |order| ==> order[i] in order;
  }

  lemma SmallerQueue(queue: map<Timer, int>, t: Timer)
    requires t in queue
    ensures |queue - {t}| < |queue|
  {
    assert queue.Keys == (queue - {t}).Keys + {t};
  }

  lemma NoneLeft(timers: set<Entry>, active: set<ActiveTimer>, queue: map<Timer, int>, now: int)
    requires Indexed(timers, active, queue) && !exists e :: e in timers && e.0 < now
    ensures forall t :: t in queue ==> queue[t] >= now
  {
    forall t | t in queue ensures queue[t] >= now {
      assert (queue[t], t) in timers;
    }
  }

  lemma AllExpired(all: map<Timer, int>, queue: map<Timer, int>, now: int, order: seq<Timer>)
    requires PartlyExpired(all, queue, now, order) && forall t :: t in queue ==> queue[t] >= now
    ensures IsExpiredList(all, now, order)
  {
    forall t | t in all && all[t] < now ensures t in order {
      assert t in order || t in queue;
    }
  }

  lemma ExpiredMeans(all: map<Timer, int>, now: int, order: seq<Timer>)
    requires IsExpiredList(all, now, order)
    ensures forall t :: t in all ==> (t in order <==> all[t] < now)
  {
  }

  /** The timers restarted among the first i of the batch. */
  ghost function RestartedOf(s: State<Timer>, i: nat): map<Timer, int>
    requires i <= |s.ran| && forall t :: t in s.ran ==> t in s.period
  {
    map t | t in s.ran[..i] && s.period[t] > 0 && t !in s.canceling :: NextExpiry(s, t)
  }

  lemma RestartedNone(s: State<Timer>)
    requires forall t :: t in s.ran ==> t in s.period
    ensures s.queue + RestartedOf(s, 0) == s.queue
  {
    assert RestartedOf(s, 0) == map[];
  }

  lemma OneMoreRestarted(s: State<Timer>, i: nat)
    requires i < |s.ran| && forall t :: t in s.ran ==> t in s.period
    ensures s.ran[i] in s.period
    ensures var t, m := s.ran[i], RestartedOf(s, i);
            RestartedOf(s, i + 1) == if s.period[t] > 0 && t !in s.canceling then m[t := s.now + s.period[t]] else m
  {
    var t, m := s.ran[i], RestartedOf(s, i);
    assert t in s.ran;
    assert s.ran[..i + 1] == s.ran[..i] + [t];
    assert forall u :: u in s.ran[..i + 1] <==> u in s.ran[..i] || u == t;
  }

  lemma RanOnce(s: State<Timer>, i: nat)
    requires i < |s.ran| && Shape(s)
    ensures s.ran[i] !in s.queue && s.ran[i] !in s.ran[..i] && forall t :: t in s.ran ==> t in s.period
  {
    assert s.ran[i] in s.ran;
  }

  lemma RestartedNext(s: State<Timer>, i: nat)
    requires i < |s.ran| && Shape(s)
    ensures forall t :: t in s.ran ==> t in s.period
    ensures var t, q := s.ran[i], s.queue + RestartedOf(s, i);
            && t in s.period && t !in q
            && s.queue + RestartedOf(s, i + 1) ==
                 if s.period[t] > 0 && t !in s.canceling then q[t := s.now + s.period[t]] else q
  {
    RanOnce(s, i);
    hide Shape;
    OneMoreRestarted(s, i);
    var t := s.ran[i];
    UpdateRight(s.queue, RestartedOf(s, i), t, s.now + s.period[t]);
  }

  lemma UpdateRight(a: map<Timer, int>, b: map<Timer, int>, t: Timer, v: int)
    ensures a + b[t := v] == (a + b)[t := v]
  {
  }

  lemma RestartedAll(s: State<Timer>)
    requires Enabled(s, Action<Timer>.Reset)
    ensures s.queue + RestartedOf(s, |s.ran|) == Step(s, Action<Timer>.Reset).queue
  {
    assert s.ran[..|s.ran|] == s.ran;
    assert RestartedOf(s, |s.ran|) == Restarted(s);
  }

  lemma SequencedIn(ts: set<Timer>, t: Timer)
    ensures (t, t.sequence) in Sequenced(ts) <==> t in ts
  {
  }

  lemma EmptyQueue(timers: set<Entry>, active: set<ActiveTimer>, queue: map<Timer, int>)
    requires Indexed(timers, active, queue)
    ensures timers == {} <==> queue == map[]
  {
    SameSize(timers, active, queue);
    if queue == map[] { assert timers == {}; }
    if queue != map[] {
      var t :| t in queue;
      assert (queue[t], t) in timers;
    }
  }

  lemma SequencedNone()
    ensures Sequenced({}) == {}
  {
  }

  lemma ArmUnchanged(armed: Option<Armed>, s: State<Timer>, a: Action<Timer>, c: Clocks)
    requires Enabled(s, a) && (a.Cancel? || a.Fire?)
    ensures ArmStep(armed, s, a, c) == armed
  {
  }

  lemma InvShape(s: State<Timer>)
    requires Inv(s)
    ensures Shape(s)
  {
  }

  /** A timer that expires at the very microsecond handleRead reads fails the assertion on line 169. */
  method ExactTie(now: int) returns (holds: bool)
    ensures !holds
  {
    var queue := new TimerQueue();
    var timer := new Timer(now, 0, 1);
    queue.AddTimerInLoop(timer, now);
    ghost var order, called, clocks;
    holds, order, called, clocks := queue.HandleRead(now, now, now);
  }
}
