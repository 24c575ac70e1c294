/** What the steps of TimerSpec do to the timer descriptor of the loop: an addition that is strictly earliest sets it,
    reading it clears it, and the end of a batch sets it unless the earliest timer is already past. */
module TimerArming {
  import opened Wrappers
  import opened TimerSpec
  import opened TimerClock

  /** The times read on the way of one step: an addition reads first when it sets the descriptor; the end of a batch
      compares with first, and reads second when it sets the descriptor. */
  datatype Clocks = Clocks(first: int, second: int)

  predicate IsEarliest<T(==)>(queue: map<T, int>, when: int)
  {
    forall u :: u in queue ==> when < queue[u]
  }

  predicate NonePast<T(==)>(queue: map<T, int>, clock: int)
  {
    forall t :: t in queue ==> queue[t] >= clock
  }

  predicate IsLeast<T(==)>(queue: map<T, int>, t: T)
  {
    t in queue && forall u :: u in queue ==> queue[t] <= queue[u]
  }

  lemma {:induction false} LeastExists<T>(queue: map<T, int>)
    requires queue != map[]
    ensures exists t :: IsLeast(queue, t)
    decreases |queue|
  {
    var t :| t in queue;
    var rest := queue - {t};
    assert queue.Keys == rest.Keys + {t};
    if rest == map[] {
      assert IsLeast(queue, t);
    } else {
      LeastExists(rest);
      var u :| IsLeast(rest, u);
      assert IsLeast(queue, if queue[t] < queue[u] then t else u);
    }
  }

  ghost function Least<T>(queue: map<T, int>): int
    requires queue != map[]
  {
    LeastExists(queue);
    var t :| t in queue && IsLeast(queue, t);
    queue[t]
  }

  lemma LeastIs<T>(queue: map<T, int>, t: T)
    requires IsLeast(queue, t)
    ensures queue != map[] && Least(queue) == queue[t]
  {
    LeastExists(queue);
  }

  /** armed is None when the descriptor is not set, or has been read since it became readable. */
  ghost function ArmStep<T>(armed: Option<Armed>, s: State<T>, a: Action<T>, c: Clocks): Option<Armed>
    requires Enabled(s, a)
  {
    match a
    case Add(t, when, _) => if IsEarliest(s.queue, when) then Some(Arm(c.first, when)) else armed
    case Expire(_, _) => None
    case Reset =>
      var q := Step(s, a).queue;
      if q != map[] && NonePast(q, c.first) then Some(Arm(c.second, Least(q))) else armed
    case _ => armed
  }

  ghost function ArmRun<T>(
    armed: Option<Armed>, s: State<T>, actions: seq<Action<T>>, clocks: seq<Clocks>): Option<Armed>
    requires Valid(s, actions) && |clocks| == |actions|
    decreases |actions|
  {
    if actions == [] then armed
    else ArmRun(ArmStep(armed, s, actions[0], clocks[0]), Step(s, actions[0]), actions[1..], clocks[1..])
  }

  lemma {:induction false} ArmRunAppend<T>(
    armed: Option<Armed>, s: State<T>, actions: seq<Action<T>>, clocks: seq<Clocks>, a: Action<T>, c: Clocks)
    requires Valid(s, actions) && |clocks| == |actions| && Enabled(Run(s, actions), a)
    ensures Valid(s, actions + [a])
    ensures ArmRun(armed, s, actions + [a], clocks + [c])
         == ArmStep(ArmRun(armed, s, actions, clocks), Run(s, actions), a, c)
    decreases |actions|
  {
    hide Step, Enabled, ArmStep;
    RunAppend(s, actions, a);
    if actions == [] {
      assert (actions + [a])[1..] == [] && (clocks + [c])[1..] == [] && actions + [a] == [a] && clocks + [c] == [c];
    } else {
      assert (actions + [a])[1..] == actions[1..] + [a] && (clocks + [c])[1..] == clocks[1..] + [c];
      ArmRunAppend(ArmStep(armed, s, actions[0], clocks[0]), Step(s, actions[0]), actions[1..], clocks[1..], a, c);
    }
  }

  lemma {:induction false} ArmRunConcat<T>(
    armed: Option<Armed>, s: State<T>, first: seq<Action<T>>, c1: seq<Clocks>, second: seq<Action<T>>, c2: seq<Clocks>)
    requires Valid(s, first) && |c1| == |first| && Valid(Run(s, first), second) && |c2| == |second|
    ensures Valid(s, first + second)
    ensures ArmRun(armed, s, first + second, c1 + c2) == ArmRun(ArmRun(armed, s, first, c1), Run(s, first), second, c2)
    decreases |first|
  {
    hide Step, Enabled, ArmStep;
    RunConcat(s, first, second);
    if first == [] {
      assert first + second == second && c1 + c2 == c2;
    } else {
      assert (first + second)[1..] == first[1..] + second && (c1 + c2)[1..] == c1[1..] + c2;
      ArmRunConcat(ArmStep(armed, s, first[0], c1[0]), Step(s, first[0]), first[1..], c1[1..], second, c2);
    }
  }

  // ---- in time ----

  /** The descriptor fires for no later than any timer of the queue or, when that was closer than the floor, 100
      microseconds after it was set. */
  predicate InTime<T(==)>(armed: Armed, queue: map<T, int>)
  {
    forall t :: t in queue ==> armed.deadline <= Max(queue[t], armed.setAt + FLOOR)
  }

  predicate OnTime<T(==)>(armed: Option<Armed>, queue: map<T, int>)
  {
    queue != map[] ==> armed.Some? && InTime(armed.value, queue)
  }

  predicate NeverLate<T(==)>(armed: Option<Armed>, queue: map<T, int>)
  {
    armed.Some? ==> InTime(armed.value, queue)
  }

  lemma AddInTime<T>(armed: Option<Armed>, queue: map<T, int>, t: T, when: int, clock: int)
    requires t !in queue
    ensures IsEarliest(queue, when) ==> InTime(Arm(clock, when), queue[t := when])
    ensures !IsEarliest(queue, when) && NeverLate(armed, queue) ==> NeverLate(armed, queue[t := when])
  {
    ArmDeadline(clock, when);
  }

  /** Additions and cancellations keep the descriptor in time. */
  lemma StepKeepsOnTime<T>(armed: Option<Armed>, s: State<T>, a: Action<T>, c: Clocks)
    requires Shape(s) && Enabled(s, a) && (a.Add? || a.Cancel? || a.Fire?)
    ensures OnTime(armed, s.queue) ==> OnTime(ArmStep(armed, s, a, c), Step(s, a).queue)
    ensures NeverLate(armed, s.queue) ==> NeverLate(ArmStep(armed, s, a, c), Step(s, a).queue)
  {
    hide Arm, Distinct;
    if a.Add? { AddInTime(armed, s.queue, a.t, a.when, c.first); }
  }

  lemma {:induction false} CallbacksNeverLate<T>(
    armed: Option<Armed>, s: State<T>, actions: seq<Action<T>>, clocks: seq<Clocks>)
    requires Inv(s) && Valid(s, actions) && |clocks| == |actions| && NeverLate(armed, s.queue)
    requires forall a :: a in actions ==> a.Add? || a.Cancel? || a.Fire?
    ensures NeverLate(ArmRun(armed, s, actions, clocks), Run(s, actions).queue)
    decreases |actions|
  {
    hide Step, Enabled, ArmStep, NeverLate, Shape, TimerInv;
    if actions != [] {
      StepKeepsOnTime(armed, s, actions[0], clocks[0]);
      StepKeepsInv(s, actions[0]);
      CallbacksNeverLate(
        ArmStep(armed, s, actions[0], clocks[0]), Step(s, actions[0]), actions[1..], clocks[1..]);
    }
  }

  lemma ArmedForLeast<T>(queue: map<T, int>, clock: int)
    requires queue != map[]
    ensures InTime(Arm(clock, Least(queue)), queue)
  {
    LeastExists(queue);
    ArmDeadline(clock, Least(queue));
  }

  /** The end of a batch: the queue is armed in time exactly when it is empty, when none of its timers is past, or when
      a callback has set the descriptor in time for the timers that are put back. */
  lemma ResetOnTimeExactlyWhen<T>(armed: Option<Armed>, s: State<T>, c: Clocks)
    requires Shape(s) && Enabled(s, Action<T>.Reset) && NeverLate(armed, s.queue)
    ensures var q := Step(s, Action<T>.Reset).queue;
            OnTime(ArmStep(armed, s, Action<T>.Reset, c), q)
            <==> q == map[] || NonePast(q, c.first) || (armed.Some? && InTime(armed.value, Restarted(s)))
  {
    hide Arm, Least, Distinct;
    var q := Step(s, Action<T>.Reset).queue;
    if q != map[] {
      if NonePast(q, c.first) { ArmedForLeast(q, c.second); }
      assert forall t :: t in s.queue ==> t in q && q[t] == s.queue[t];
      assert forall t :: t in Restarted(s) ==> t in q && q[t] == Restarted(s)[t];
    }
  }

  /** A whole handleRead: the expiry of a batch, callbacks that add and cancel at will, and the end of the batch. called
      is the state before the end of the batch and armed what the callbacks have set the descriptor to. */
  lemma BatchOnTimeExactlyWhen<T>(
    before: Option<Armed>, s: State<T>, now: int, order: seq<T>, called: seq<Action<T>>, clocks: seq<Clocks>, c: Clocks)
    requires Inv(s) && Enabled(s, Expire(now, order)) && |clocks| == |called|
    requires var s1 := Step(s, Expire(now, order)); Valid(s1, called) && Enabled(Run(s1, called), Action<T>.Reset)
    requires forall a :: a in called ==> a.Add? || a.Cancel? || a.Fire?
    ensures var s1 := Step(s, Expire(now, order));
            var s2, armed := Run(s1, called), ArmRun(None, s1, called, clocks);
            var q := Step(s2, Action<T>.Reset).queue;
            OnTime(ArmStep(armed, s2, Action<T>.Reset, c), q)
            <==> q == map[] || NonePast(q, c.first) || (armed.Some? && InTime(armed.value, Restarted(s2)))
  {
    hide Step, Enabled, ArmStep, Restarted, InTime, NonePast, Shape, TimerInv;
    var s1 := Step(s, Expire(now, order));
    StepKeepsInv(s, Expire(now, order));
    RunKeepsInv(s1, called);
    CallbacksNeverLate(None, s1, called, clocks);
    ResetOnTimeExactlyWhen(ArmRun(None, s1, called, clocks), Run(s1, called), c);
  }

  // ---- not too early ----

  /** The descriptor is due exactly for the least expiry of the queue, or 100 microseconds after it was set if that is
      later. */
  predicate IsDueFor<T(==)>(armed: Armed, queue: map<T, int>)
  {
    exists t :: t in queue && (forall u :: u in queue ==> queue[t] <= queue[u])
                && armed.deadline == Max(queue[t], armed.setAt + 100)
  }

  /** Whenever a step sets the descriptor it is due for the least expiry at that moment, no earlier and no later; any
      other step leaves it alone or, reading it, clears it. */
  lemma SetForLeast<T>(armed: Option<Armed>, s: State<T>, a: Action<T>, c: Clocks)
    requires Enabled(s, a)
    ensures var after, queue := ArmStep(armed, s, a, c), Step(s, a).queue;
            if a.Add? && (forall u :: u in s.queue ==> a.when < s.queue[u]) then
              && after == Some(Armed(c.first, Max(a.when, c.first + 100))) && IsDueFor(after.value, queue)
            else if a.Reset? && queue != map[] && (forall u :: u in queue ==> queue[u] >= c.first) then
              after.Some? && after.value.setAt == c.second && IsDueFor(after.value, queue)
            else after == if a.Expire? then None else armed
  {
    hide Arm;
    var queue := Step(s, a).queue;
    if a.Add? {
      ArmDeadline(c.first, a.when);
      if forall u :: u in s.queue ==> a.when < s.queue[u] {
        assert a.t in queue && queue[a.t] == a.when && forall u :: u in queue ==> queue[a.t] <= queue[u];
      }
    } else if a.Reset? && queue != map[] {
      LeastExists(queue);
      var t :| t in queue && IsLeast(queue, t);
      LeastIs(queue, t);
      ArmDeadline(c.second, Least(queue));
    }
  }

  /** armed was due for the least expiry after step k of the run. */
  predicate SetBy<T(==)>(armed: Armed, s: State<T>, actions: seq<Action<T>>, k: nat)
  {
    k < |actions| && Valid(s, actions[..k+1]) && IsDueFor(armed, Run(s, actions[..k+1]).queue)
  }

  lemma {:induction false} SetByFirst<T>(armed: Armed, s: State<T>, actions: seq<Action<T>>)
    requires actions != [] && Enabled(s, actions[0]) && IsDueFor(armed, Step(s, actions[0]).queue)
    ensures SetBy(armed, s, actions, 0)
  {
    hide Step, Enabled, IsDueFor;
    var one := actions[..1];
    assert one[1..] == [] && one[0] == actions[0];
    Empty(None, Step(s, actions[0]));
    assert Valid(s, one) && Run(s, one) == Step(s, actions[0]);
  }

  lemma FirstSets<T>(armed: Option<Armed>, s: State<T>, actions: seq<Action<T>>, c: Clocks)
    requires actions != [] && Enabled(s, actions[0])
    ensures var next := ArmStep(armed, s, actions[0], c);
            next == None || next == armed || SetBy(next.value, s, actions, 0)
  {
    SetForLeast(armed, s, actions[0], c);
    var next := ArmStep(armed, s, actions[0], c);
    if next != None && next != armed { SetByFirst(next.value, s, actions); }
  }

  lemma {:induction false} SetByLater<T>(armed: Armed, s: State<T>, actions: seq<Action<T>>, k: nat)
    requires actions != [] && Enabled(s, actions[0]) && SetBy(armed, Step(s, actions[0]), actions[1..], k)
    ensures SetBy(armed, s, actions, k + 1)
  {
    hide Step, Enabled, IsDueFor;
    assert actions[..k+2][1..] == actions[1..][..k+1];
  }

  /** In every run a descriptor that is set was set by one of its steps, when it was due for the least expiry. */
  lemma {:induction false} DueForLeast<T>(
    armed: Option<Armed>, s: State<T>, actions: seq<Action<T>>, clocks: seq<Clocks>) returns (k: nat)
    requires Valid(s, actions) && |clocks| == |actions|
    ensures var after := ArmRun(armed, s, actions, clocks);
            after == None || after == armed || SetBy(after.value, s, actions, k)
    decreases |actions|
  {
    k := 0;
    if actions != [] {
      hide Step, Enabled, ArmStep, SetBy;
      FirstSets(armed, s, actions, clocks[0]);
      var s1, next := Step(s, actions[0]), ArmStep(armed, s, actions[0], clocks[0]);
      var j := DueForLeast(next, s1, actions[1..], clocks[1..]);
      var after := ArmRun(next, s1, actions[1..], clocks[1..]);
      if after != None && after != next {
        k := j + 1;
        SetByLater(after.value, s, actions, j);
      }
    }
  }

  // ---- the stall after a missed arming ----

  /** Some addition of the run is strictly earliest when it comes. */
  predicate AddsEarliest<T(==)>(s: State<T>, actions: seq<Action<T>>)
    requires Valid(s, actions)
    decreases |actions|
  {
    actions != []
    && ((actions[0].Add? && IsEarliest(s.queue, actions[0].when)) || AddsEarliest(Step(s, actions[0]), actions[1..]))
  }

  /** With the descriptor not set it never becomes readable, so that no batch expires. It stays so, and no timer fires,
      exactly as long as no addition is strictly earliest. */
  lemma {:induction false} StalledExactlyWhen<T>(
    armed: Option<Armed>, s: State<T>, actions: seq<Action<T>>, clocks: seq<Clocks>)
    requires !s.calling && Valid(s, actions) && |clocks| == |actions| && forall a :: a in actions ==> !a.Expire?
    ensures ArmRun(armed, s, actions, clocks) == None <==> armed == None && !AddsEarliest(s, actions)
    ensures Run(s, actions).log == s.log
    decreases |actions|
  {
    if actions != [] {
      assert actions[0] in actions;
      StalledExactlyWhen(
        ArmStep(armed, s, actions[0], clocks[0]), Step(s, actions[0]), actions[1..], clocks[1..]);
    }
  }

  /** Such a stall: timers for 5 and 15, a batch that expires at 10 and whose end finds the second one past at 20. */
  lemma MissedArming(later: int)
    requires later >= 15
    ensures var actions :=
              [Add(1, 5, 0), Add(2, 15, 0), Expire(10, [1]), Action<nat>.Fire, Action<nat>.Reset, Add(3, later, 0)];
            var clocks := [Clocks(0, 0), Clocks(0, 0), Clocks(0, 0), Clocks(0, 0), Clocks(20, 20), Clocks(20, 20)];
            && Valid(Initial<nat>(), actions)
            && Run(Initial<nat>(), actions).queue == map[2 := 15, 3 := later]
            && ArmRun(None, Initial<nat>(), actions, clocks) == None
  {
    hide Valid, Run, ArmRun;
    var s0 := Initial<nat>();
    var c, c' := Clocks(0, 0), Clocks(20, 20);
    var s, actions, clocks := FirstExpires();
    s, actions, clocks := More(None, s0, actions, clocks, Action<nat>.Fire, c);
    assert Restarted(s) == map[] && s.queue + map[] == map[2 := 15];
    s, actions, clocks := More(None, s0, actions, clocks, Action<nat>.Reset, c');
    assert s.queue[2] == 15;
    s, actions, clocks := More(None, s0, actions, clocks, Add(3, later, 0), c');
    assert s.queue == map[2 := 15, 3 := later];
    assert actions ==
           [Add(1, 5, 0), Add(2, 15, 0), Expire(10, [1]), Action<nat>.Fire, Action<nat>.Reset, Add(3, later, 0)];
    assert clocks == [c, c, c, c, c', c'];
  }

  lemma FirstExpires() returns (s: State<nat>, actions: seq<Action<nat>>, clocks: seq<Clocks>)
    ensures actions == [Add(1, 5, 0), Add(2, 15, 0), Expire(10, [1])]
    ensures clocks == [Clocks(0, 0), Clocks(0, 0), Clocks(0, 0)]
    ensures Valid(Initial<nat>(), actions) && s == Run(Initial<nat>(), actions)
    ensures ArmRun(None, Initial<nat>(), actions, clocks) == None
    ensures s.queue == map[2 := 15] && s.period == map[1 := 0, 2 := 0]
    ensures s.calling && s.now == 10 && s.batch == [1] && s.ran == [] && s.canceling == {}
  {
    hide Valid, Run, ArmRun;
    var s0 := Initial<nat>();
    var c := Clocks(0, 0);
    Empty(None, s0);
    s, actions, clocks := More(None, s0, [], [], Add(1, 5, 0), c);
    s, actions, clocks := More(None, s0, actions, clocks, Add(2, 15, 0), c);
    assert s.queue == map[1 := 5, 2 := 15] && s.period == map[1 := 0, 2 := 0];
    s, actions, clocks := More(None, s0, actions, clocks, Expire(10, [1]), c);
    assert s.queue == map[2 := 15];
  }

  lemma Empty<T>(armed: Option<Armed>, s: State<T>)
    ensures Valid(s, []) && Run(s, []) == s && ArmRun(armed, s, [], []) == armed
  {
  }

  lemma More<T>(
    armed: Option<Armed>, s: State<T>, actions: seq<Action<T>>, clocks: seq<Clocks>, a: Action<T>, c: Clocks)
    returns (t: State<T>, longer: seq<Action<T>>, ticks: seq<Clocks>)
    requires Valid(s, actions) && |clocks| == |actions| && Enabled(Run(s, actions), a)
    ensures longer == actions + [a] && ticks == clocks + [c] && Valid(s, longer)
    ensures t == Run(s, longer) == Step(Run(s, actions), a)
    ensures ArmRun(armed, s, longer, ticks) == ArmStep(ArmRun(armed, s, actions, clocks), Run(s, actions), a, c)
  {
    hide Step, Enabled, ArmStep;
    RunAppend(s, actions, a);
    ArmRunAppend(armed, s, actions, clocks, a, c);
    longer, ticks := actions + [a], clocks + [c];
    t := Run(s, longer);
  }
}
