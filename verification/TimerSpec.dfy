/** What happens to timers, as steps on values: adding, cancelling, the expiry of a batch, its callbacks, and the
    re-insertion of periodic timers; with the record of all firings and cancellations. */
module TimerSpec {
  /** queue maps a waiting timer to its expiry; period maps every timer ever added to its interval (periodic exactly
      when positive). While a batch runs, batch holds the timers still to run and ran those that have run, now is the
      time handleRead took, and canceling the timers cancelled outside the queue. log lists all firings with the
      time of their handleRead, cancelled the timers ever cancelled. */
  datatype State<T(==)> = State(
    queue: map<T, int>, period: map<T, int>, calling: bool, now: int, batch: seq<T>, ran: seq<T>,
    canceling: set<T>, log: seq<(T, int)>, cancelled: set<T>)

  datatype Action<T(==)> =
    | Add(t: T, when: int, interval: int)
    | Cancel(t: T)
    | Expire(now: int, order: seq<T>)
    | Fire
    | Reset

  function Initial<T>(): State<T>
  {
    State(map[], map[], false, 0, [], [], {}, [], {})
  }

  /** The times at which t has fired. */
  function Fires<T(==)>(log: seq<(T, int)>, t: T): seq<int>
  {
    if log == [] then []
    else Fires(log[..|log|-1], t) + if log[|log|-1].0 == t then [log[|log|-1].1] else []
  }

  predicate Distinct<T(==)>(s: seq<T>)
  {
    forall i, j :: 0 <= i < j < |s| ==> s[i] != s[j]
  }

  /** order lists exactly the timers that expire before now (a timer expiring at now is not among them), earliest
      first. */
  predicate IsExpiredList<T(==)>(queue: map<T, int>, now: int, order: seq<T>)
  {
    && Distinct(order)
    && (forall t :: t in order ==> t in queue && queue[t] < now)
    && (forall t :: t in queue && queue[t] < now ==> t in order)
    && (forall i, j :: 0 <= i < j < |order| ==> queue[order[i]] <= queue[order[j]])
  }

  function NextExpiry<T(==)>(s: State<T>, t: T): int
    requires t in s.period
  {
    s.now + s.period[t]
  }

  function Restarted<T(==)>(s: State<T>): map<T, int>
    requires forall t :: t in s.ran ==> t in s.period
  {
    map t | t in s.ran && s.period[t] > 0 && t !in s.canceling :: NextExpiry(s, t)
  }

  predicate Enabled<T(==)>(s: State<T>, a: Action<T>)
  {
    match a
    case Add(t, _, _) => t !in s.period
    case Cancel(t) => t in s.period
    case Expire(now, order) => !s.calling && IsExpiredList(s.queue, now, order)
    case Fire => s.calling && s.batch != []
    case Reset => s.calling && s.batch == [] && forall t :: t in s.ran ==> t in s.period
  }

  function Step<T(==)>(s: State<T>, a: Action<T>): State<T>
    requires Enabled(s, a)
  {
    match a
    case Add(t, when, interval) => s.(queue := s.queue[t := when], period := s.period[t := interval])
    case Cancel(t) =>
      s.(queue := s.queue - {t},
         canceling := if t !in s.queue && s.calling then s.canceling + {t} else s.canceling,
         cancelled := s.cancelled + {t})
    case Expire(now, order) =>
      s.(queue := s.queue - (set t | t in order), calling := true, now := now, batch := order, ran := [],
         canceling := {})
    case Fire =>
      s.(batch := s.batch[1..], ran := s.ran + [s.batch[0]], log := s.log + [(s.batch[0], s.now)])
    case Reset =>
      s.(queue := s.queue + Restarted(s), calling := false, ran := [])
  }

  predicate Valid<T(==)>(s: State<T>, actions: seq<Action<T>>)
    decreases |actions|
  {
    actions == [] || (Enabled(s, actions[0]) && Valid(Step(s, actions[0]), actions[1..]))
  }

  function Run<T(==)>(s: State<T>, actions: seq<Action<T>>): State<T>
    requires Valid(s, actions)
    decreases |actions|
  {
    if actions == [] then s else Run(Step(s, actions[0]), actions[1..])
  }

  lemma {:induction false} RunAppend<T>(s: State<T>, actions: seq<Action<T>>, a: Action<T>)
    requires Valid(s, actions) && Enabled(Run(s, actions), a)
    ensures Valid(s, actions + [a]) && Run(s, actions + [a]) == Step(Run(s, actions), a)
    decreases |actions|
  {
    if actions == [] {
      assert (actions + [a])[1..] == [];
    } else {
      assert (actions + [a])[1..] == actions[1..] + [a];
      RunAppend(Step(s, actions[0]), actions[1..], a);
    }
  }

  lemma {:induction false} RunConcat<T>(s: State<T>, first: seq<Action<T>>, second: seq<Action<T>>)
    requires Valid(s, first) && Valid(Run(s, first), second)
    ensures Valid(s, first + second) && Run(s, first + second) == Run(Run(s, first), second)
    decreases |first|
  {
    if first == [] {
      assert first + second == second;
    } else {
      assert (first + second)[1..] == first[1..] + second;
      RunConcat(Step(s, first[0]), first[1..], second);
    }
  }

  // ---- the life of one timer ----

  predicate Spaced(f: seq<int>, p: int)
  {
    forall i :: 0 < i < |f| ==> f[i] - f[i-1] > p
  }

  predicate TimerInv<T(==)>(s: State<T>, t: T)
    requires t in s.period
  {
    var f, p := Fires(s.log, t), s.period[t];
    && (p > 0 ==> Spaced(f, p))
    && (p <= 0 ==> |f| <= 1 && (f != [] ==> t !in s.queue && t !in s.batch))
    && (f != [] && t in s.queue ==> s.queue[t] == f[|f|-1] + p)
    && (f != [] && t in s.batch ==> s.now > f[|f|-1] + p)
    && (t in s.ran ==> f != [] && f[|f|-1] == s.now)
    && (t !in s.cancelled ==> t in s.queue || t in s.batch || (if p > 0 then t in s.ran else |f| == 1))
    && (t in s.cancelled ==>
         t !in s.queue && (t in s.batch || t in s.ran ==> t in s.canceling))
  }

  predicate Shape<T(==)>(s: State<T>)
  {
    && (!s.calling ==> s.batch == [] && s.ran == [])
    && Distinct(s.batch) && Distinct(s.ran)
    && (forall t :: t in s.batch ==> t !in s.queue && t !in s.ran && t in s.period)
    && (forall t :: t in s.ran ==> t !in s.queue && t in s.period)
    && (forall t :: t in s.queue ==> t in s.period)
    && (forall t :: t in s.cancelled ==> t in s.period)
    && (forall t :: t in s.canceling ==> t in s.cancelled)
    && (forall e :: e in s.log ==> e.0 in s.period)
  }

  predicate Inv<T(==)>(s: State<T>)
  {
    Shape(s) && forall t :: t in s.period ==> TimerInv(s, t)
  }

  lemma {:induction false} FiresUnknown<T>(log: seq<(T, int)>, t: T)
    requires forall e :: e in log ==> e.0 != t
    ensures Fires(log, t) == []
  {
    if log != [] { FiresUnknown(log[..|log|-1], t); }
  }

  lemma FiresAppend<T>(log: seq<(T, int)>, e: (T, int), t: T)
    ensures Fires(log + [e], t) == Fires(log, t) + if e.0 == t then [e.1] else []
  {
    assert (log + [e])[..|log|] == log;
  }

  lemma StepKeepsShape<T>(s: State<T>, a: Action<T>)
    requires Shape(s) && Enabled(s, a)
    ensures Shape(Step(s, a))
  {
    hide Fires;
    if a.Fire? {
      FireShape(s);
    }
  }

  lemma FireShape<T>(s: State<T>)
    requires Shape(s) && Enabled(s, Fire)
    ensures Shape(Step(s, Fire))
    ensures forall u :: u in Step(s, Fire).batch <==> u in s.batch && u != s.batch[0]
  {
    hide Fires;
    var t, rest := s.batch[0], s.batch[1..];
    assert s.batch == [t] + rest;
    assert forall k :: 0 <= k < |rest| ==> rest[k] == s.batch[k + 1];
    assert forall k :: 0 <= k < |s.ran| ==> s.ran[k] in s.ran;
  }

  lemma NewTimer<T>(s: State<T>, t: T, when: int, interval: int)
    requires Shape(s) && Enabled(s, Add(t, when, interval))
    ensures TimerInv(Step(s, Add(t, when, interval)), t)
  {
    FiresUnknown(s.log, t);
    hide Fires;
  }

  /** One step in the life of a timer that exists already. */
  lemma {:induction false} StepKeepsTimer<T>(s: State<T>, a: Action<T>, t: T)
    requires Shape(s) && Enabled(s, a) && t in s.period && TimerInv(s, t)
    ensures t in Step(s, a).period && TimerInv(Step(s, a), t)
  {
    hide Fires, Distinct;
    if a.Fire? {
      FireShape(s);
      FiresAppend(s.log, (s.batch[0], s.now), t);
    } else if a.Expire? {
      assert t in a.order ==> t in s.queue && s.queue[t] < a.now;
    }
  }

  lemma StepKeepsInv<T>(s: State<T>, a: Action<T>)
    requires Inv(s) && Enabled(s, a)
    ensures Inv(Step(s, a))
  {
    hide Shape, TimerInv, Fires;
    StepKeepsShape(s, a);
    forall t | t in Step(s, a).period ensures TimerInv(Step(s, a), t) {
      if t in s.period {
        StepKeepsTimer(s, a, t);
      } else {
        NewTimer(s, t, a.when, a.interval);
      }
    }
  }

  lemma {:induction false} RunKeepsInv<T>(s: State<T>, actions: seq<Action<T>>)
    requires Inv(s) && Valid(s, actions)
    ensures Inv(Run(s, actions))
    decreases |actions|
  {
    hide Inv, Step, Enabled;
    if actions != [] {
      StepKeepsInv(s, actions[0]);
      RunKeepsInv(Step(s, actions[0]), actions[1..]);
    }
  }

  /** Over any run a timer that is not periodic fires at most once, and the handleRead times of consecutive firings of
      a periodic timer lie more than its interval apart, whatever the clock does in between. */
  lemma FiringHistory<T>(actions: seq<Action<T>>, t: T)
    requires Valid(Initial<T>(), actions)
    ensures var s := Run(Initial<T>(), actions);
            t in s.period ==> if s.period[t] > 0 then Spaced(Fires(s.log, t), s.period[t]) else |Fires(s.log, t)| <= 1
  {
    RunKeepsInv(Initial<T>(), actions);
    var s := Run(Initial<T>(), actions);
    if t in s.period { assert TimerInv(s, t); }
  }

  /** The firings t has had, and the one it is still due in the current batch. */
  function Spent<T(==)>(s: State<T>, t: T): nat
  {
    |Fires(s.log, t)| + if t in s.batch then 1 else 0
  }

  lemma StepSpends<T>(s: State<T>, a: Action<T>, t: T)
    requires Inv(s) && Enabled(s, a) && t in s.cancelled
    ensures t in Step(s, a).cancelled && Spent(Step(s, a), t) == Spent(s, t)
  {
    hide Fires;
    assert TimerInv(s, t);
    if a.Fire? {
      FireShape(s);
      FiresAppend(s.log, (s.batch[0], s.now), t);
    } else if a.Reset? {
      assert Step(s, a).batch == [];
    }
  }

  /** After a cancellation in the loop the timer never waits in the queue again, and it fires at most once more: only
      if it stood in the running batch at that moment. */
  lemma {:induction false} CancelIsFinal<T>(s: State<T>, t: T, after: seq<Action<T>>)
    requires Inv(s) && Enabled(s, Cancel(t)) && Valid(Step(s, Cancel(t)), after)
    ensures var s' := Run(Step(s, Cancel(t)), after);
            && t !in s'.queue
            && |Fires(s'.log, t)| <= |Fires(s.log, t)| + if t in s.batch then 1 else 0
  {
    var c := Step(s, Cancel(t));
    StepKeepsInv(s, Cancel(t));
    CancelledSpends(c, t, after);
  }

  lemma {:induction false} CancelledSpends<T>(s: State<T>, t: T, actions: seq<Action<T>>)
    requires Inv(s) && t in s.cancelled && Valid(s, actions)
    ensures var s' := Run(s, actions);
            t !in s'.queue && Spent(s', t) == Spent(s, t)
    decreases |actions|
  {
    hide Fires, Step, Enabled;
    assert TimerInv(s, t);
    if actions != [] {
      StepKeepsInv(s, actions[0]);
      StepSpends(s, actions[0], t);
      CancelledSpends(Step(s, actions[0]), t, actions[1..]);
    }
  }

  /** No timer is lost: in every run a timer that has not been cancelled waits in the queue or is due in the running
      batch, or else it is a one-shot timer that has fired, once, or a periodic one that has fired in the running batch.
      Between batches a periodic timer waits, for one interval after its last firing if it has fired. */
  lemma {:induction false} NoTimerLost<T>(start: State<T>, actions: seq<Action<T>>, t: T)
    requires Inv(start) && Valid(start, actions)
    ensures var s := Run(start, actions); var f := Fires(s.log, t);
            t in s.period && t !in s.cancelled ==>
              && (t in s.queue || t in s.batch || (if s.period[t] > 0 then t in s.ran else |f| == 1))
              && (!s.calling && s.period[t] > 0 ==>
                    t in s.queue && (f != [] ==> s.queue[t] == f[|f|-1] + s.period[t]))
  {
    hide Fires, Inv, Run, Valid;
    RunKeepsInv(start, actions);
    WhereTimerIs(Run(start, actions), t);
  }

  lemma WhereTimerIs<T>(s: State<T>, t: T)
    requires Inv(s)
    ensures var f := Fires(s.log, t);
            t in s.period && t !in s.cancelled ==>
              && (t in s.queue || t in s.batch || (if s.period[t] > 0 then t in s.ran else |f| == 1))
              && (!s.calling && s.period[t] > 0 ==>
                    t in s.queue && (f != [] ==> s.queue[t] == f[|f|-1] + s.period[t]))
  {
    hide Fires, Distinct;
    if t in s.period { assert TimerInv(s, t); }
  }

  predicate Adds<T(==)>(actions: seq<Action<T>>, t: T, interval: int)
  {
    exists a :: a in actions && a.Add? && a.t == t && a.interval == interval
  }

  predicate AddsAny<T(==)>(actions: seq<Action<T>>, t: T)
  {
    exists a :: a in actions && a.Add? && a.t == t
  }

  predicate Cancels<T(==)>(actions: seq<Action<T>>, t: T)
  {
    exists a :: a in actions && a.Cancel? && a.t == t
  }

  lemma StepRecords<T>(s: State<T>, a: Action<T>, t: T)
    requires Enabled(s, a)
    ensures t in Step(s, a).cancelled <==> t in s.cancelled || (a.Cancel? && a.t == t)
    ensures t in Step(s, a).period <==> t in s.period || (a.Add? && a.t == t)
    ensures t in Step(s, a).period ==>
              Step(s, a).period[t] == if a.Add? && a.t == t then a.interval else s.period[t]
    ensures a.Add? ==> Step(s, a).queue == s.queue[a.t := a.when]
  {
    hide IsExpiredList, Restarted;
  }

  /** In every run the timers are those added, with their intervals, and the cancelled ones those cancelled. */
  lemma {:induction false} RunRecords<T>(s: State<T>, actions: seq<Action<T>>, t: T)
    requires Valid(s, actions)
    ensures var u := Run(s, actions);
            && (t in u.cancelled <==> t in s.cancelled || Cancels(actions, t))
            && (t in u.period <==> t in s.period || AddsAny(actions, t))
            && (t in s.period ==> t in u.period && u.period[t] == s.period[t])
            && (t !in s.period && t in u.period ==> Adds(actions, t, u.period[t]))
    decreases |actions|
  {
    if actions != [] {
      var a := actions[0];
      StepRecords(s, a, t);
      var s1 := Step(s, a);
      assert a.Add? && a.t == t ==> t !in s.period;
      hide Step, Enabled;
      RunRecords(s1, actions[1..], t);
      assert actions == [a] + actions[1..];
      assert Cancels(actions, t) <==> (a.Cancel? && a.t == t) || Cancels(actions[1..], t);
      assert AddsAny(actions, t) <==> (a.Add? && a.t == t) || AddsAny(actions[1..], t);
      if t !in s.period && t in Run(s, actions).period {
        var i := Run(s, actions).period[t];
        assert Adds(actions, t, i) <==> (a.Add? && a.t == t && a.interval == i) || Adds(actions[1..], t, i);
      }
    }
  }

  /** Nothing has happened to t before when has passed. */
  predicate NotBefore<T(==)>(s: State<T>, t: T, when: int)
  {
    && t in s.period
    && (forall i :: 0 <= i < |Fires(s.log, t)| ==> Fires(s.log, t)[i] > when)
    && (t in s.queue ==> s.queue[t] >= when)
    && (t in s.batch || t in s.ran ==> s.now > when)
  }

  lemma StepNotBefore<T>(s: State<T>, a: Action<T>, t: T, when: int)
    requires Inv(s) && Enabled(s, a) && NotBefore(s, t, when)
    ensures NotBefore(Step(s, a), t, when)
  {
    hide Fires, Distinct, TimerInv;
    if a.Fire? {
      FireShape(s);
      FiresAppend(s.log, (s.batch[0], s.now), t);
    } else if a.Expire? {
      assert t in a.order ==> t in s.queue && s.queue[t] < a.now;
    }
  }

  lemma {:induction false} RunNotBefore<T>(s: State<T>, actions: seq<Action<T>>, t: T, when: int)
    requires Inv(s) && Valid(s, actions) && NotBefore(s, t, when)
    ensures NotBefore(Run(s, actions), t, when)
    decreases |actions|
  {
    hide Inv, Step, Enabled, NotBefore;
    if actions != [] {
      StepNotBefore(s, actions[0], t, when);
      StepKeepsInv(s, actions[0]);
      RunNotBefore(Step(s, actions[0]), actions[1..], t, when);
    }
  }

  /** A timer fires only when the time it was added for has passed, in every run. */
  lemma NeverEarly<T>(s: State<T>, t: T, when: int, interval: int, after: seq<Action<T>>)
    requires Inv(s) && Enabled(s, Add(t, when, interval)) && Valid(Step(s, Add(t, when, interval)), after)
    ensures var f := Fires(Run(Step(s, Add(t, when, interval)), after).log, t);
            forall i :: 0 <= i < |f| ==> f[i] > when
  {
    StepKeepsInv(s, Add(t, when, interval));
    FiresUnknown(s.log, t);
    RunNotBefore(Step(s, Add(t, when, interval)), after, t, when);
  }
}
