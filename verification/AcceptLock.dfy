/** The lock that processes of a pre-forking server take before they watch the listening socket: the hooks before each
    poll and after each accept, as a step relation over any number of processes and mutexes. */
module AcceptLock {
  import opened Wrappers

  type Proc = nat
  type Mutex = nat

  // ---- construction ----

  /** The steps of the server's constructor that matter here. Every process that exists runs each of them. */
  datatype Init = CreateMutex | ForkChildren(n: nat)

  /** mutexOf[p] is the mutex process p sees, once there is one. */
  datatype Built = Built(processes: nat, mutexOf: seq<Mutex>, created: nat)

  const BEFORE := Built(1, [], 0)

  /** Shared memory is mapped once by every process that runs the step; a child sees what its parent has mapped. */
  function Initialise(b: Built, i: Init): Built
  {
    match i
    case CreateMutex => Built(b.processes, seq(b.processes, p => b.created + p), b.created + b.processes)
    case ForkChildren(n) => Built(b.processes + b.processes * n, b.mutexOf + Inherited(b.mutexOf, n), b.created)
  }

  function Inherited(mutexOf: seq<Mutex>, n: nat): seq<Mutex>
  {
    if n == 0 then [] else Inherited(mutexOf, n - 1) + mutexOf
  }

  function Construct(b: Built, inits: seq<Init>): Built
    decreases |inits|
  {
    if inits == [] then b else Construct(Initialise(b, inits[0]), inits[1..])
  }

  predicate Shared(mutexOf: seq<Mutex>)
  {
    forall p, q :: 0 <= p < q < |mutexOf| ==> mutexOf[p] == mutexOf[q]
  }

  function Mutexes(inits: seq<Init>): nat
  {
    if inits == [] then 0 else (if inits[0].CreateMutex? then 1 else 0) + Mutexes(inits[1..])
  }

  /** No child is forked before the mutex is created. */
  predicate MutexFirst(inits: seq<Init>)
  {
    inits == [] || inits[0].CreateMutex? || (inits[0].n == 0 && MutexFirst(inits[1..]))
  }

  lemma {:induction false} InheritedOnly(mutexOf: seq<Mutex>, n: nat)
    ensures |Inherited(mutexOf, n)| == |mutexOf| * n
    ensures forall m :: m in Inherited(mutexOf, n) ==> m in mutexOf
  {
    if n > 0 { InheritedOnly(mutexOf, n - 1); }
  }

  lemma SharedMeans(mutexOf: seq<Mutex>)
    ensures Shared(mutexOf) <==> forall a, b :: a in mutexOf && b in mutexOf ==> a == b
  {
    if Shared(mutexOf) {
      forall a, b | a in mutexOf && b in mutexOf ensures a == b {
        var p :| 0 <= p < |mutexOf| && mutexOf[p] == a;
        var q :| 0 <= q < |mutexOf| && mutexOf[q] == b;
      }
    } else {
      var p, q :| 0 <= p < q < |mutexOf| && mutexOf[p] != mutexOf[q];
      assert mutexOf[p] in mutexOf && mutexOf[q] in mutexOf;
    }
  }

  lemma ForkGrows(processes: nat, n: nat)
    requires processes > 0
    ensures processes * n >= 0
    ensures processes + processes * n == 1 <==> processes == 1 && n == 0
  {
    if n > 0 { assert processes * n >= processes by { assert processes * (n - 1) >= 0; } }
  }

  lemma ForkKeepsShared(b: Built, n: nat)
    requires |b.mutexOf| == b.processes > 0
    ensures var c := Initialise(b, ForkChildren(n));
            |c.mutexOf| == c.processes >= b.processes && (Shared(c.mutexOf) <==> Shared(b.mutexOf))
  {
    var c := Initialise(b, ForkChildren(n));
    ForkGrows(b.processes, n);
    InheritedOnly(b.mutexOf, n);
    SharedMeans(b.mutexOf);
    SharedMeans(c.mutexOf);
    hide Shared;
    assert forall m :: m in c.mutexOf <==> m in b.mutexOf;
  }

  /** Forking never changes whether all processes see one mutex. */
  lemma {:induction false} ForkingKeepsShared(b: Built, inits: seq<Init>)
    requires Mutexes(inits) == 0 && |b.mutexOf| == b.processes > 0
    ensures var c := Construct(b, inits);
            |c.mutexOf| == c.processes >= b.processes && (Shared(c.mutexOf) <==> Shared(b.mutexOf))
    decreases |inits|
  {
    if inits != [] {
      var c := Initialise(b, inits[0]);
      ForkKeepsShared(b, inits[0].n);
      hide Initialise, Shared;
      ForkingKeepsShared(c, inits[1..]);
    }
  }

  /** With one mutex created anywhere among any forks, all processes see one mutex exactly when it is created before
      the first child is forked. */
  lemma {:induction false} SharedExactlyWhenMutexFirst(b: Built, inits: seq<Init>)
    requires Mutexes(inits) == 1 && b.mutexOf == [] && b.processes > 0
    ensures var c := Construct(b, inits);
            |c.mutexOf| == c.processes && (Shared(c.mutexOf) <==> b.processes == 1 && MutexFirst(inits))
    decreases |inits|
  {
    var c := Initialise(b, inits[0]);
    if inits[0].CreateMutex? {
      CreatedShared(b);
      hide Initialise, Shared;
      ForkingKeepsShared(c, inits[1..]);
    } else {
      ForkGrows(b.processes, inits[0].n);
      InheritedOnly([], inits[0].n);
      hide Shared;
      SharedExactlyWhenMutexFirst(c, inits[1..]);
    }
  }

  lemma CreatedShared(b: Built)
    requires b.processes > 0
    ensures var c := Initialise(b, CreateMutex);
            |c.mutexOf| == c.processes == b.processes && (Shared(c.mutexOf) <==> b.processes == 1)
  {
    var c := Initialise(b, CreateMutex);
    if b.processes > 1 { assert c.mutexOf[0] != c.mutexOf[1]; }
  }

  // ---- the processes ----

  /** Where a process is in its loop. */
  datatype Place =
    | BeforeLoop     // about to try the lock
    | Locked         // trylock succeeded
    | Flagged        // isLock_ set
    | Polling
    | Accepting      // the listening socket was among the active ones
    | AfterAccept
    | Unflagged      // isLock_ cleared again
    | Unlistened     // out of the epoll again
    | Serving        // other events
    | Gone           // left the loop for good, and its server has been destroyed

  datatype Process = Process(place: Place, isLock: bool, inEpoll: bool)

  /** owner maps a mutex that is held to its holder; dead holds the mutexes that have been destroyed. backlog counts
      connections waiting on the listening socket, which all processes share; arrived, accepted and misses count what
      has come, what accept took, and calls of accept that found nothing. */
  datatype State = State(
    mutexOf: seq<Mutex>, owner: map<Mutex, Proc>, dead: set<Mutex>, procs: seq<Process>,
    backlog: nat, arrived: nat, accepted: nat, misses: nat)

  /** A process moves alone up to the next point where others can interfere. The choice matters in two places: whether
      the poll reports the listening socket, and whether a signal has asked the process to end. */
  datatype Action = Arrive | Move(p: Proc, choice: bool)

  predicate Enabled(s: State, a: Action)
  {
    a.Move? ==>
      && a.p < |s.procs| && a.p < |s.mutexOf| && s.procs[a.p].place != Gone
      && (s.procs[a.p].place == Polling && a.choice ==> s.procs[a.p].inEpoll && s.backlog > 0)
  }

  function At(s: State, p: Proc, q: Process): State
    requires p < |s.procs|
  {
    s.(procs := s.procs[p := q])
  }

  /** pthread_mutex_destroy by a process that ends. The mutex is the one all processes that see it share, not a copy;
      a mutex that is held, by whomever, refuses, and stays as it is. */
  function Destroy(s: State, m: Mutex): State
  {
    if m in s.owner then s else s.(dead := s.dead + {m})
  }

  function Step(s: State, a: Action): State
    requires Enabled(s, a)
  {
    match a
    case Arrive => s.(backlog := s.backlog + 1, arrived := s.arrived + 1)
    case Move(p, choice) =>
      var q, m := s.procs[p], s.mutexOf[p];
      match q.place
      case BeforeLoop =>
        // trylock fails whoever holds the mutex, this process included, and on a destroyed mutex
        if m in s.owner || m in s.dead then At(s, p, q.(place := Polling))
        else At(s.(owner := s.owner[m := p]), p, q.(place := Locked))
      case Locked => At(s, p, q.(place := Flagged, isLock := true))
      case Flagged => At(s, p, q.(place := Polling, inEpoll := true))
      case Polling => At(s, p, q.(place := if choice then Accepting else Serving))
      case Accepting =>
        At(if s.backlog > 0 then s.(backlog := s.backlog - 1, accepted := s.accepted + 1)
           else s.(misses := s.misses + 1),
           p, q.(place := AfterAccept))
      case AfterAccept => At(s, p, if q.isLock then q.(place := Unflagged, isLock := false) else q.(place := Serving))
      case Unflagged => At(s, p, q.(place := Unlistened, inEpoll := false))
      case Unlistened => At(s.(owner := s.owner - {m}), p, q.(place := Serving))
      case Serving => if choice then At(Destroy(s, m), p, q.(place := Gone)) else At(s, p, q.(place := BeforeLoop))
      case Gone => s
  }

  predicate Valid(s: State, run: seq<Action>)
    decreases |run|
  {
    run == [] || (Enabled(s, run[0]) && Valid(Step(s, run[0]), run[1..]))
  }

  function Run(s: State, run: seq<Action>): State
    requires Valid(s, run)
    decreases |run|
  {
    if run == [] then s else Run(Step(s, run[0]), run[1..])
  }

  lemma {:induction false} RunConcat(s: State, first: seq<Action>, second: seq<Action>)
    requires Valid(s, first) && Valid(Run(s, first), second)
    ensures Valid(s, first + second) && Run(s, first + second) == Run(Run(s, first), second)
    decreases |first|
  {
    hide Step, Enabled;
    if first == [] {
      assert first + second == second;
    } else {
      assert (first + second)[1..] == first[1..] + second && (first + second)[0] == first[0];
      RunConcat(Step(s, first[0]), first[1..], second);
    }
  }

  lemma OneMore(s: State, run: seq<Action>, a: Action) returns (longer: seq<Action>)
    requires Valid(s, run) && Enabled(Run(s, run), a)
    ensures Valid(s, longer) && Run(s, longer) == Step(Run(s, run), a)
  {
    hide Step, Enabled;
    var t := Run(s, run);
    assert [a][1..] == [] && Run(Step(t, a), []) == Step(t, a);
    assert Valid(t, [a]) && Run(t, [a]) == Run(Step(t, a), [a][1..]);
    RunConcat(s, run, [a]);
    longer := run + [a];
  }

  predicate Start(s: State)
  {
    && s.owner == map[] && s.dead == {} && |s.procs| == |s.mutexOf|
    && (forall p :: 0 <= p < |s.procs| ==> s.procs[p] == Process(BeforeLoop, false, false))
    && s.backlog == s.arrived == s.accepted == s.misses == 0
  }

  // ---- what holds in every reachable state ----

  predicate Owns(s: State, p: Proc)
  {
    p < |s.mutexOf| && s.mutexOf[p] in s.owner && s.owner[s.mutexOf[p]] == p
  }

  /** Ownership, the flag and the registration go together except inside the hooks, which bring them into step. */
  predicate Coherent(s: State, p: Proc)
    requires p < |s.procs|
  {
    var q := s.procs[p];
    match q.place
    case Locked => Owns(s, p) && !q.isLock && !q.inEpoll
    case Flagged => Owns(s, p) && q.isLock && !q.inEpoll
    case Accepting => Owns(s, p) && q.isLock && q.inEpoll
    case AfterAccept => Owns(s, p) && q.isLock && q.inEpoll
    case Unflagged => Owns(s, p) && !q.isLock && q.inEpoll
    case Unlistened => Owns(s, p) && !q.isLock && !q.inEpoll
    case _ => Owns(s, p) == q.isLock == q.inEpoll
  }

  predicate Inv(s: State)
  {
    && |s.procs| == |s.mutexOf|
    && (forall p :: 0 <= p < |s.procs| ==> Coherent(s, p))
    && (forall m :: m in s.owner ==> s.owner[m] < |s.mutexOf| && s.mutexOf[s.owner[m]] == m)
    && (forall m :: m in s.dead ==> m !in s.owner)
    && s.arrived == s.accepted + s.backlog
  }

  lemma MoveKeepsOwners(s: State, p: Proc, choice: bool)
    requires Inv(s) && Enabled(s, Move(p, choice))
    ensures var t := Step(s, Move(p, choice));
            && t.mutexOf == s.mutexOf && |t.procs| == |s.procs|
            && (forall q :: 0 <= q < |s.procs| && q != p ==> t.procs[q] == s.procs[q] && Owns(t, q) == Owns(s, q))
            && (forall m :: m in t.owner ==> t.owner[m] < |t.mutexOf| && t.mutexOf[t.owner[m]] == m)
            && (forall m :: m in t.dead ==> m !in t.owner)
            && t.arrived == t.accepted + t.backlog
  {
    assert Coherent(s, p);
  }

  lemma MoveKeepsInv(s: State, p: Proc, choice: bool)
    requires Inv(s) && Enabled(s, Move(p, choice))
    ensures Inv(Step(s, Move(p, choice))) && Step(s, Move(p, choice)).mutexOf == s.mutexOf
  {
    var t := Step(s, Move(p, choice));
    assert Coherent(s, p);
    assert Coherent(t, p);
    MoveKeepsOwners(s, p, choice);
    hide Step, Owns;
    forall q | 0 <= q < |t.procs| ensures Coherent(t, q) {
      assert Coherent(s, q);
    }
  }

  lemma StepKeepsInv(s: State, a: Action)
    requires Inv(s) && Enabled(s, a)
    ensures Inv(Step(s, a)) && Step(s, a).mutexOf == s.mutexOf
  {
    match a
    case Arrive =>
      forall p | 0 <= p < |s.procs| ensures Coherent(Step(s, a), p) { assert Coherent(s, p); }
    case Move(p, choice) => MoveKeepsInv(s, p, choice);
  }

  lemma {:induction false} RunKeepsInv(s: State, run: seq<Action>)
    requires Inv(s) && Valid(s, run)
    ensures Inv(Run(s, run)) && Run(s, run).mutexOf == s.mutexOf
    decreases |run|
  {
    hide Inv, Step, Enabled;
    if run != [] {
      StepKeepsInv(s, run[0]);
      RunKeepsInv(Step(s, run[0]), run[1..]);
    }
  }

  lemma StartHasInv(s: State)
    requires Start(s)
    ensures Inv(s)
  {
  }

  // ---- exclusion ----

  /** The process has the listening socket in its epoll. */
  predicate Watches(s: State, p: Proc)
  {
    p < |s.procs| && s.procs[p].inEpoll
  }

  predicate Exclusive(s: State)
  {
    forall p, q :: 0 <= p < q < |s.procs| ==> !(Watches(s, p) && Watches(s, q))
  }

  /** Whoever watches the socket owns its mutex; at every poll the flag tells the truth about both. */
  lemma WatchingNeedsTheLock(s: State, run: seq<Action>, p: Proc)
    requires Start(s) && Valid(s, run) && p < |s.procs|
    ensures var t := Run(s, run);
            && p < |t.procs|
            && (Watches(t, p) ==> Owns(t, p))
            && (t.procs[p].place == Polling ==> t.procs[p].isLock == Owns(t, p) == Watches(t, p))
  {
    StartHasInv(s);
    RunKeepsInv(s, run);
    assert Coherent(Run(s, run), p);
  }

  lemma ExclusiveWhenShared(s: State)
    requires Inv(s) && Shared(s.mutexOf)
    ensures Exclusive(s)
  {
    forall p, q | 0 <= p < q < |s.procs| ensures !(Watches(s, p) && Watches(s, q)) {
      assert Coherent(s, p) && Coherent(s, q);
    }
  }

  /** Three moves take the lock: trylock, the flag, the registration. */
  lemma TakesLock(s: State, p: Proc) returns (run: seq<Action>)
    requires Inv(s) && p < |s.procs| && s.procs[p].place == BeforeLoop
    requires s.mutexOf[p] !in s.owner && s.mutexOf[p] !in s.dead
    ensures Valid(s, run) && Run(s, run) == At(s.(owner := s.owner[s.mutexOf[p] := p]), p, Process(Polling, true, true))
  {
    assert Coherent(s, p);
    run := OneMore(s, [], Move(p, false));
    run := OneMore(s, run, Move(p, false));
    run := OneMore(s, run, Move(p, false));
    assert Run(s, run).procs == s.procs[p := Process(Polling, true, true)];
  }

  /** A process that already holds the lock runs the hook again without any effect on lock, flag or registration. */
  lemma HookAgain(s: State, run: seq<Action>, p: Proc, choice: bool)
    requires Start(s) && Valid(s, run) && p < |s.procs|
    requires var t := Run(s, run); p < |t.procs| && t.procs[p].place == BeforeLoop && Owns(t, p)
    ensures var t := Run(s, run);
            Enabled(t, Move(p, choice)) && Step(t, Move(p, choice)) == At(t, p, Process(Polling, true, true))
  {
    StartHasInv(s);
    RunKeepsInv(s, run);
    assert Coherent(Run(s, run), p);
  }

  /** No run ever has two processes watching the socket if, and only if, all processes see one mutex. */
  lemma ExclusiveExactlyWhenShared(s: State)
    requires Start(s)
    ensures (forall run :: Valid(s, run) ==> Exclusive(Run(s, run))) <==> Shared(s.mutexOf)
  {
    StartHasInv(s);
    if Shared(s.mutexOf) {
      forall run | Valid(s, run) ensures Exclusive(Run(s, run)) {
        RunKeepsInv(s, run);
        ExclusiveWhenShared(Run(s, run));
      }
    } else {
      var p, q :| 0 <= p < q < |s.mutexOf| && s.mutexOf[p] != s.mutexOf[q];
      var run := BothWatch(s, p, q);
    }
  }

  lemma BothWatch(s: State, p: Proc, q: Proc) returns (run: seq<Action>)
    requires Start(s) && p < q < |s.mutexOf| && s.mutexOf[p] != s.mutexOf[q]
    ensures Valid(s, run) && !Exclusive(Run(s, run))
    ensures var t := Run(s, run);
            && |t.procs| == |s.procs| == |t.mutexOf| && t.backlog == 0
            && t.procs[p] == t.procs[q] == Process(Polling, true, true)
  {
    StartHasInv(s);
    var first := TakesLock(s, p);
    RunKeepsInv(s, first);
    var second := TakesLock(Run(s, first), q);
    RunConcat(s, first, second);
    run := first + second;
    hide Valid, Run;
    assert Watches(Run(s, run), p) && Watches(Run(s, run), q);
  }

  // ---- one accept for each report ----

  /** A process told that a connection is waiting will find it. */
  predicate ReportsKept(s: State)
  {
    s.misses == 0 && forall p :: 0 <= p < |s.procs| && s.procs[p].place == Accepting ==> s.backlog > 0
  }

  lemma StepKeepsReports(s: State, a: Action)
    requires Inv(s) && Shared(s.mutexOf) && Enabled(s, a) && ReportsKept(s)
    ensures ReportsKept(Step(s, a))
  {
    var t := Step(s, a);
    if a.Move? && s.procs[a.p].place == Accepting {
      forall p | 0 <= p < |t.procs| ensures t.procs[p].place != Accepting {
        assert Coherent(s, p) && Coherent(s, a.p);
      }
    }
  }

  lemma {:induction false} RunKeepsReports(s: State, run: seq<Action>)
    requires Inv(s) && Shared(s.mutexOf) && Valid(s, run) && ReportsKept(s)
    ensures ReportsKept(Run(s, run))
    decreases |run|
  {
    hide Inv, Step, Enabled, ReportsKept, Shared;
    if run != [] {
      StepKeepsInv(s, run[0]);
      StepKeepsReports(s, run[0]);
      RunKeepsReports(Step(s, run[0]), run[1..]);
    }
  }

  /** With one mutex no process is woken for a connection that another one takes, in any run; with two it can happen. */
  lemma NeverMissesExactlyWhenShared(s: State)
    requires Start(s)
    ensures (forall run :: Valid(s, run) ==> Run(s, run).misses == 0) <==> Shared(s.mutexOf)
  {
    StartHasInv(s);
    if Shared(s.mutexOf) {
      forall run | Valid(s, run) ensures Run(s, run).misses == 0 {
        RunKeepsReports(s, run);
      }
    } else {
      var p, q :| 0 <= p < q < |s.mutexOf| && s.mutexOf[p] != s.mutexOf[q];
      var run := Misses(s, p, q);
    }
  }

  lemma Misses(s: State, p: Proc, q: Proc) returns (run: seq<Action>)
    requires Start(s) && p < q < |s.mutexOf| && s.mutexOf[p] != s.mutexOf[q]
    ensures Valid(s, run) && Run(s, run).misses > 0
  {
    run := BothWatch(s, p, q);
    hide Valid, Run;
    run := OneMore(s, run, Arrive);
    run := OneMore(s, run, Move(p, true));
    run := OneMore(s, run, Move(q, true));
    run := OneMore(s, run, Move(p, false));
    run := OneMore(s, run, Move(q, false));
  }

  // ---- a process that ends while it holds the lock ----

  /** Some process can still come to accept a connection. */
  predicate CanServe(s: State)
    requires |s.procs| == |s.mutexOf|
  {
    exists p :: 0 <= p < |s.procs| && MayAccept(s, p)
  }

  predicate MayAccept(s: State, p: Proc)
    requires p < |s.procs| == |s.mutexOf|
  {
    s.procs[p].place != Gone && s.mutexOf[p] !in s.dead && (s.mutexOf[p] !in s.owner || Owns(s, p))
  }

  lemma StuckStays(s: State, a: Action)
    requires Inv(s) && Enabled(s, a) && !CanServe(s)
    ensures Inv(Step(s, a)) && !CanServe(Step(s, a)) && Step(s, a).accepted == s.accepted
  {
    StepKeepsInv(s, a);
    var t := Step(s, a);
    if a.Move? {
      assert Coherent(s, a.p) && !MayAccept(s, a.p);
    }
    forall p | 0 <= p < |t.procs| ensures !MayAccept(t, p) {
      assert !MayAccept(s, p);
    }
  }

  lemma {:induction false} StuckForever(s: State, run: seq<Action>)
    requires Inv(s) && Valid(s, run) && !CanServe(s)
    ensures Run(s, run).accepted == s.accepted
    decreases |run|
  {
    hide Inv, Step, Enabled, CanServe;
    if run != [] {
      StuckStays(s, run[0]);
      StuckForever(Step(s, run[0]), run[1..]);
    }
  }

  /** How many moves are left, at most, before a process that may take the lock accepts a connection. */
  function MovesLeft(q: Process): nat
  {
    match q.place
    case Accepting => 1
    case Polling => if q.inEpoll then 2 else 7
    case Flagged => 3
    case Locked => 4
    case BeforeLoop => 5
    case Serving => 6
    case Unlistened => 7
    case Unflagged => 8
    case AfterAccept => 9
    case Gone => 0
  }

  lemma {:induction false} DriveToAccept(s: State, p: Proc) returns (run: seq<Action>)
    requires Inv(s) && s.backlog > 0 && p < |s.procs| && MayAccept(s, p)
    ensures Valid(s, run) && Run(s, run).accepted > s.accepted
    decreases MovesLeft(s.procs[p])
  {
    assert Coherent(s, p);
    var a := Move(p, s.procs[p].place == Polling && s.procs[p].inEpoll);
    var t := Step(s, a);
    if s.procs[p].place == Accepting {
      run := [a];
      assert run[1..] == [];
    } else {
      StepKeepsInv(s, a);
      hide Inv;
      var rest := DriveToAccept(t, p);
      run := [a] + rest;
      assert run[1..] == rest;
    }
  }

  /** From any reachable state the server can accept one more connection if and only if some process that has not ended
      owns its mutex, or finds it free and not destroyed. */
  lemma ServesAgainExactlyWhen(s: State)
    requires Inv(s)
    ensures (exists run :: Valid(s, run) && Run(s, run).accepted > s.accepted) <==> CanServe(s)
  {
    if CanServe(s) {
      var p :| 0 <= p < |s.procs| && MayAccept(s, p);
      StepKeepsInv(s, Arrive);
      assert MayAccept(Step(s, Arrive), p);
      var rest := DriveToAccept(Step(s, Arrive), p);
      var run := [Arrive] + rest;
      assert run[1..] == rest;
      assert Valid(s, run) && Run(s, run).accepted > s.accepted;
    } else {
      forall run | Valid(s, run) ensures Run(s, run).accepted == s.accepted {
        StuckForever(s, run);
      }
    }
  }

  /** When a process ends, the others can go on serving if and only if one of them holds the lock at that moment: held
      by the process itself it is never released, and free it is destroyed for all of them. */
  lemma EndingStopsServerExactlyWhen(s: State, p: Proc)
    requires Inv(s) && Shared(s.mutexOf) && CanServe(s) && p < |s.procs| && s.procs[p].place == Serving
    ensures Enabled(s, Move(p, true)) && Inv(Step(s, Move(p, true)))
    ensures CanServe(Step(s, Move(p, true))) <==> s.mutexOf[p] in s.owner && s.owner[s.mutexOf[p]] != p
  {
    var t := Step(s, Move(p, true));
    StepKeepsInv(s, Move(p, true));
    var w :| 0 <= w < |s.procs| && MayAccept(s, w);
    assert s.mutexOf[w] == s.mutexOf[p];
    if s.mutexOf[p] in s.owner && s.owner[s.mutexOf[p]] != p {
      assert MayAccept(t, w);
    } else {
      forall q | 0 <= q < |t.procs| ensures !MayAccept(t, q) {
        assert t.mutexOf[q] == t.mutexOf[p];
      }
    }
  }

  lemma ServesOne(s: State) returns (run: seq<Action>)
    requires Start(s) && |s.procs| > 1
    ensures Valid(s, run)
    ensures var t := Run(s, run);
            && t.mutexOf == s.mutexOf && t.owner == map[] && t.dead == {}
            && t.procs == s.procs[0 := Process(Serving, false, false)]
  {
    StartHasInv(s);
    run := TakesLock(s, 0);
    hide Valid, Run, Inv;
    run := OneMore(s, run, Arrive);
    run := OneMore(s, run, Move(0, true));
    run := OneMore(s, run, Move(0, true));
    run := OneMore(s, run, Move(0, true));
    run := OneMore(s, run, Move(0, true));
    run := OneMore(s, run, Move(0, true));
  }

  /** A process serves a connection, gives the lock back and ends: the other process is alive, nobody holds the mutex,
      and no connection is ever accepted again. */
  lemma EndingWithFreeLock(s: State) returns (run: seq<Action>)
    requires Start(s) && Shared(s.mutexOf) && |s.procs| > 1
    ensures Valid(s, run) && Inv(Run(s, run)) && !CanServe(Run(s, run))
    ensures Run(s, run).owner == map[] && |Run(s, run).procs| > 1 && Run(s, run).procs[1].place == BeforeLoop
  {
    StartHasInv(s);
    run := ServesOne(s);
    hide Valid, Run, Inv;
    run := OneMore(s, run, Move(0, true));
    RunKeepsInv(s, run);
    var t := Run(s, run);
    assert t.dead == {t.mutexOf[0]};
    forall q | 0 <= q < |t.procs| ensures !MayAccept(t, q) {
      assert q > 0 ==> t.mutexOf[0] == t.mutexOf[q];
    }
  }

  /** A process that ends in a turn without a connection takes the lock with it. */
  lemma EndingWithTheLock(s: State) returns (run: seq<Action>)
    requires Start(s) && Shared(s.mutexOf) && |s.procs| > 1
    ensures Valid(s, run) && Inv(Run(s, run)) && !CanServe(Run(s, run))
    ensures Owns(Run(s, run), 0) && |Run(s, run).procs| > 1 && Run(s, run).procs[1].place == BeforeLoop
  {
    StartHasInv(s);
    run := TakesLock(s, 0);
    hide Valid, Run, Inv;
    run := OneMore(s, run, Move(0, false));
    run := OneMore(s, run, Move(0, true));
    RunKeepsInv(s, run);
    var t := Run(s, run);
    forall q | 0 <= q < |t.procs| ensures !MayAccept(t, q) {
      assert q > 0 ==> t.mutexOf[0] == t.mutexOf[q];
    }
  }

  // ---- from the constructor to every run ----

  /** All processes the constructor leaves behind, each about to enter its loop. */
  function Launched(mutexOf: seq<Mutex>): State
  {
    State(mutexOf, map[], {}, seq(|mutexOf|, p => Process(BeforeLoop, false, false)), 0, 0, 0, 0)
  }

  /** Whatever else the constructor forks and in whatever order: its processes exclude each other in every run, and
      never miss a connection, if and only if the mutex is created before the first child is forked. */
  lemma ConstructionDecides(inits: seq<Init>)
    requires Mutexes(inits) == 1
    ensures var s := Launched(Construct(BEFORE, inits).mutexOf);
            && ((forall run :: Valid(s, run) ==> Exclusive(Run(s, run))) <==> MutexFirst(inits))
            && ((forall run :: Valid(s, run) ==> Run(s, run).misses == 0) <==> MutexFirst(inits))
  {
    SharedExactlyWhenMutexFirst(BEFORE, inits);
    var s := Launched(Construct(BEFORE, inits).mutexOf);
    ExclusiveExactlyWhenShared(s);
    NeverMissesExactlyWhenShared(s);
  }

  /** The order in which the server declares its members: the mutex, then a pool of four children. */
  lemma DeclaredOrder()
    ensures Mutexes([CreateMutex, ForkChildren(4)]) == 1 && MutexFirst([CreateMutex, ForkChildren(4)])
    ensures Construct(BEFORE, [CreateMutex, ForkChildren(4)]).processes == 5
  {
    assert [CreateMutex, ForkChildren(4)][1..] == [ForkChildren(4)];
    assert [ForkChildren(4)][1..] == [];
  }

  // ---- the hooks of one process among the others ----

  /** The mutexes and processes as they are. Every change is a step of the relation above. */
  class World {
    var state: State

    constructor (mutexOf: seq<Mutex>)
      ensures state == Launched(mutexOf) && Inv(state)
    {
      state := Launched(mutexOf);
      StartHasInv(Launched(mutexOf));
    }

    /** One move of process p; run is the history so far. */
    method Advance(p: Proc, choice: bool, ghost start: State, ghost run: seq<Action>)
      returns (ghost longer: seq<Action>)
      requires Inv(state) && Valid(start, run) && state == Run(start, run) && Enabled(state, Move(p, choice))
      modifies this
      ensures state == Step(old(state), Move(p, choice)) && Inv(state)
      ensures Valid(start, longer) && state == Run(start, longer)
    {
      StepKeepsInv(state, Move(p, choice));
      longer := OneMore(start, run, Move(p, choice));
      hide Inv, Step;
      state := Step(state, Move(p, choice));
    }

    /** Other processes move and connections arrive, as often as they like. */
    method Others(p: Proc, ghost start: State, ghost run: seq<Action>) returns (ghost longer: seq<Action>)
      requires Inv(state) && Valid(start, run) && state == Run(start, run) && p < |state.procs|
      modifies this
      ensures Inv(state) && Valid(start, longer) && state == Run(start, longer)
      ensures |state.procs| == |old(state).procs| && state.procs[p] == old(state).procs[p]
    {
      var n: nat := *;
      longer := run;
      while n > 0
        invariant Inv(state) && Valid(start, longer) && state == Run(start, longer)
        invariant |state.procs| == |old(state).procs| && p < |state.procs| && state.procs[p] == old(state).procs[p]
      {
        var arrives: bool, q: Proc, choice: bool := *, *, *;
        var a := if arrives then Arrive else Move(q, choice);
        if (arrives || q != p) && Enabled(state, a) {
          StepKeepsInv(state, a);
          longer := OneMore(start, longer, a);
          KeepsProcs(state, a, p);
          hide Inv, Step;
          state := Step(state, a);
        }
        n := n - 1;
      }
    }
  }

  lemma KeepsProcs(s: State, a: Action, p: Proc)
    requires Enabled(s, a) && p < |s.procs|
    ensures |Step(s, a).procs| == |s.procs|
    ensures a.Arrive? || a.p != p ==> Step(s, a).procs[p] == s.procs[p]
  {
  }

  /** The loop takes the listening socket out of the active channels: the first entry that is it, and no other. */
  method TakeListening(active: seq<int>, listenFd: int) returns (found: bool, rest: seq<int>)
    ensures found <==> listenFd in active
    ensures !found ==> rest == active
    ensures found ==> exists i :: IsRest(active, listenFd, rest, i)
  {
    found, rest := false, active;
    var i := 0;
    while i < |active| && !found
      invariant 0 <= i <= |active|
      invariant !found ==> rest == active && listenFd !in active[..i]
      invariant found ==> IsRest(active, listenFd, rest, i)
      decreases |active| - i, !found
    {
      if active[i] == listenFd {
        found, rest := true, active[..i] + active[i + 1..];
      } else {
        i := i + 1;
      }
    }
  }

  /** One process: its own fields, which the world shows as they are. */
  class Server {
    const pid: Proc
    const world: World
    const listenFd: int
    var isLock: bool
    var inEpoll: bool
    var served: nat

    ghost predicate Shown(place: Place)
      reads this, world
    {
      && Inv(world.state) && pid < |world.state.procs|
      && world.state.procs[pid] == Process(place, isLock, inEpoll)
    }

    /** run leads from start to the world as it is. */
    ghost predicate Led(start: State, run: seq<Action>)
      reads this, world
    {
      Valid(start, run) && world.state == Run(start, run)
    }

    constructor (pid: Proc, world: World, listenFd: int)
      requires Inv(world.state) && pid < |world.state.procs|
      requires world.state.procs[pid] == Process(BeforeLoop, false, false)
      ensures Shown(BeforeLoop) && served == 0
      ensures this.pid == pid && this.world == world && this.listenFd == listenFd
    {
      this.pid, this.world, this.listenFd := pid, world, listenFd;
      isLock, inEpoll, served := false, false, 0;
    }

    /** lockAcceptor: with the others moving between any two of its steps it is a run of the relation, and afterwards
        the flag, the registration and ownership agree. */
    method LockAcceptor(ghost start: State, ghost before: seq<Action>) returns (ghost run: seq<Action>)
      requires Shown(BeforeLoop) && Led(start, before)
      modifies this`isLock, this`inEpoll, world
      ensures Shown(Polling) && Led(start, run)
      ensures isLock == inEpoll == Owns(world.state, pid)
    {
      hide Inv, Step, Valid, Run;
      EnabledUnlessGone(world.state, pid);
      MoveFrom(world.state, pid, false);
      run := world.Advance(pid, false, start, before);
      var locked := world.state.procs[pid].place == Locked;
      if locked {
        run := world.Others(pid, start, run);
        EnabledUnlessGone(world.state, pid);
        MoveFrom(world.state, pid, false);
        isLock := true;
        run := world.Advance(pid, false, start, run);
        run := world.Others(pid, start, run);
        EnabledUnlessGone(world.state, pid);
        MoveFrom(world.state, pid, false);
        inEpoll := true;
        run := world.Advance(pid, false, start, run);
      }
      CoherentOf(world.state, pid);
    }

    /** unlockAcceptor, after an accept. */
    method UnlockAcceptor(ghost start: State, ghost before: seq<Action>) returns (ghost run: seq<Action>)
      requires Shown(AfterAccept) && Led(start, before)
      modifies this`isLock, this`inEpoll, world
      ensures Shown(Serving) && Led(start, run) && !isLock && !inEpoll && !Owns(world.state, pid)
    {
      hide Inv, Step, Valid, Run;
      CoherentOf(world.state, pid);
      EnabledUnlessGone(world.state, pid);
      MoveFrom(world.state, pid, false);
      isLock := false;
      run := world.Advance(pid, false, start, before);
      run := world.Others(pid, start, run);
      EnabledUnlessGone(world.state, pid);
      MoveFrom(world.state, pid, false);
      inEpoll := false;
      run := world.Advance(pid, false, start, run);
      run := world.Others(pid, start, run);
      EnabledUnlessGone(world.state, pid);
      MoveFrom(world.state, pid, false);
      run := world.Advance(pid, false, start, run);
      CoherentOf(world.state, pid);
    }

    /** Accepts one connection, if there is still one. */
    method HandleRead(ghost start: State, ghost before: seq<Action>) returns (ghost run: seq<Action>)
      requires Shown(Accepting) && Led(start, before) && Start(start)
      modifies this`served, world
      ensures Shown(AfterAccept) && Led(start, run)
      ensures served <= old(served) + 1 && (Shared(start.mutexOf) ==> served == old(served) + 1)
    {
      hide Inv, Step, Valid, Run, Shared, ReportsKept;
      if Shared(start.mutexOf) { AcceptingFinds(start, before, pid); }
      EnabledUnlessGone(world.state, pid);
      MoveFrom(world.state, pid, false);
      AcceptsOne(world.state, pid);
      var accepted := world.state.accepted;
      run := world.Advance(pid, false, start, before);
      if world.state.accepted > accepted { served := served + 1; }
    }

    /** One turn of the loop up to the other events: ready is what is ready in the kernel. With the others moving at any
        time, the turn is a run of the relation. It accepts at most once, exactly once when the listening socket is
        reported and all processes see one mutex, and the lock is given back then; otherwise it is kept. */
    method Turn(ready: seq<int>, ghost start: State, ghost before: seq<Action>)
      returns (rest: seq<int>, reported: bool, ghost run: seq<Action>)
      requires Shown(BeforeLoop) && Led(start, before) && Start(start)
      modifies this`isLock, this`inEpoll, this`served, world
      ensures Shown(Serving) && Led(start, run)
      ensures isLock == inEpoll == Owns(world.state, pid)
      ensures reported ==> listenFd in ready && !isLock && served <= old(served) + 1
      ensures reported && Shared(start.mutexOf) ==> served == old(served) + 1
      ensures !reported ==> served == old(served) && rest == Without(ready, listenFd)
      ensures reported ==> exists i :: IsRest(ready, listenFd, rest, i)
    {
      hide Inv, Step, Valid, Run, Shared;
      run := LockAcceptor(start, before);
      run := world.Others(pid, start, run);
      var watched := inEpoll && world.state.backlog > 0;
      var active := if watched then ready else Without(ready, listenFd);
      reported, rest := TakeListening(active, listenFd);
      WithoutAbsent(ready, listenFd);
      assert reported ==> watched && active == ready;
      PollEnabled(world.state, pid, reported);
      MoveFrom(world.state, pid, reported);
      run := world.Advance(pid, reported, start, run);
      run := world.Others(pid, start, run);
      if reported {
        run := HandleRead(start, run);
        run := world.Others(pid, start, run);
        run := UnlockAcceptor(start, run);
      }
      CoherentOf(world.state, pid);
    }

    /** The end of a turn: back to the head of the loop, or out of it, which destroys the server and its mutex. */
    method EndTurn(quits: bool, ghost start: State, ghost before: seq<Action>) returns (ghost run: seq<Action>)
      requires Shown(Serving) && Led(start, before)
      modifies world
      ensures Shown(if quits then Gone else BeforeLoop) && Led(start, run)
      ensures quits && Shared(world.state.mutexOf) && CanServe(old(world.state)) ==>
                (CanServe(world.state) <==>
                 old(world.state.mutexOf[pid] in world.state.owner
                     && world.state.owner[world.state.mutexOf[pid]] != pid))
    {
      EndingStops(world.state, pid);
      hide Inv, Step, Valid, Run, Shared, CanServe;
      EnabledUnlessGone(world.state, pid);
      MoveFrom(world.state, pid, quits);
      run := world.Advance(pid, quits, start, before);
    }
  }

  lemma EndingStops(s: State, p: Proc)
    requires Inv(s) && p < |s.procs| && s.procs[p].place == Serving
    ensures Enabled(s, Move(p, true)) && |Step(s, Move(p, true)).procs| == |Step(s, Move(p, true)).mutexOf|
    ensures Step(s, Move(p, true)).mutexOf == s.mutexOf
    ensures Shared(s.mutexOf) && CanServe(s) ==>
              (CanServe(Step(s, Move(p, true))) <==> s.mutexOf[p] in s.owner && s.owner[s.mutexOf[p]] != p)
  {
    if Shared(s.mutexOf) && CanServe(s) { EndingStopsServerExactlyWhen(s, p); }
  }

  /** rest is ready without its first entry for fd, which is entry i. */
  predicate IsRest(ready: seq<int>, fd: int, rest: seq<int>, i: int)
  {
    0 <= i < |ready| && ready[i] == fd && fd !in ready[..i] && rest == ready[..i] + ready[i + 1..]
  }

  /** The kernel reports nothing about a descriptor that is not registered. */
  function Without(ready: seq<int>, fd: int): (r: seq<int>)
    ensures fd !in r
  {
    if ready == [] then []
    else if ready[0] == fd then Without(ready[1..], fd)
    else [ready[0]] + Without(ready[1..], fd)
  }

  lemma {:induction false} WithoutAbsent(ready: seq<int>, fd: int)
    ensures fd !in ready ==> Without(ready, fd) == ready
  {
    if ready != [] { WithoutAbsent(ready[1..], fd); }
  }

  lemma EnabledUnlessGone(s: State, p: Proc)
    requires Inv(s) && p < |s.procs| && s.procs[p].place != Gone
    ensures Enabled(s, Move(p, false))
    ensures s.procs[p].place != Polling ==> Enabled(s, Move(p, true))
  {
  }

  lemma PollEnabled(s: State, p: Proc, choice: bool)
    requires Inv(s) && p < |s.procs| && s.procs[p].place == Polling
    requires choice ==> s.procs[p].inEpoll && s.backlog > 0
    ensures Enabled(s, Move(p, choice))
  {
  }

  /** What a move makes of the process itself; free tells whether it finds its mutex free. */
  function Moved(q: Process, choice: bool, free: bool): Process
  {
    match q.place
    case BeforeLoop => q.(place := if free then Locked else Polling)
    case Locked => q.(place := Flagged, isLock := true)
    case Flagged => q.(place := Polling, inEpoll := true)
    case Polling => q.(place := if choice then Accepting else Serving)
    case Accepting => q.(place := AfterAccept)
    case AfterAccept => if q.isLock then q.(place := Unflagged, isLock := false) else q.(place := Serving)
    case Unflagged => q.(place := Unlistened, inEpoll := false)
    case Unlistened => q.(place := Serving)
    case Serving => q.(place := if choice then Gone else BeforeLoop)
    case Gone => q
  }

  lemma MoveFrom(s: State, p: Proc, choice: bool)
    requires Enabled(s, Move(p, choice))
    ensures var m := s.mutexOf[p];
            Step(s, Move(p, choice)).procs == s.procs[p := Moved(s.procs[p], choice, m !in s.owner && m !in s.dead)]
    ensures Step(s, Move(p, choice)).mutexOf == s.mutexOf
  {
  }

  lemma CoherentOf(s: State, p: Proc)
    requires Inv(s) && p < |s.procs|
    ensures Coherent(s, p)
  {
  }

  lemma AcceptsOne(s: State, p: Proc)
    requires Enabled(s, Move(p, false)) && s.procs[p].place == Accepting
    ensures Step(s, Move(p, false)).accepted == s.accepted + if s.backlog > 0 then 1 else 0
  {
  }

  lemma AcceptingFinds(start: State, run: seq<Action>, p: Proc)
    requires Start(start) && Shared(start.mutexOf) && Valid(start, run)
    requires p < |Run(start, run).procs| && Run(start, run).procs[p].place == Accepting
    ensures Run(start, run).backlog > 0
  {
    StartHasInv(start);
    RunKeepsReports(start, run);
  }
}
