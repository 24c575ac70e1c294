/** Connections of a server across its loops: accepted in the base loop, established, served and closed in their own
    loop, taken off the connection map in the base loop and destroyed in their own loop again. Loops interleave
    freely; the functors of a loop may run in any order, which covers the order in which they were queued. */
module TcpServer {
  import opened Decimal

  type Loop = nat
  type Id = nat

  const BASE: Loop := 0

  datatype ConnState = Connecting | Connected | Disconnecting | Disconnected

  /** interest: the descriptor is registered with the kernel of its loop; mapped: its channel is in the channel map of
      its loop; destroyed counts the calls of connectionDestroyed. */
  datatype Conn = Conn(loop: Loop, state: ConnState, interest: bool, mapped: bool, destroyed: nat)

  datatype Message = Establish(id: Id) | Remove(id: Id) | Destroy(id: Id)

  datatype Phase = Polling | Dispatching(active: set<Id>) | RunningFunctors

  /** mail holds the functors queued in the loops. held tells which connections the functors a loop has already run in
      its current list still point to: the list lives until the last functor has returned. */
  datatype State = State(
    phase: map<Loop, Phase>, conns: map<Id, Conn>, connectionMap: map<string, Id>, nextId: Id,
    mail: multiset<(Loop, Message)>, held: set<(Loop, Id)>)

  datatype Action =
    | Accept(l: Loop)                        // newConnection with l as the next loop
    | Poll(l: Loop, ready: set<Id>)
    | HandleEvent(l: Loop, id: Id, shuts: bool, closes: bool)
    | Shutdown(l: Loop, id: Id)              // by any callback in its loop
    | EndDispatch(l: Loop)
    | RunEstablish(l: Loop, id: Id)
    | RunRemove(id: Id)
    | RunDestroy(l: Loop, id: Id)
    | EndFunctors(l: Loop)

  /** "#" and the running number; the server's own name in front of it is the same for all connections. */
  function Name(id: Id): string
  {
    "#" + Print(id)
  }

  lemma NameIs(id: Id)
    ensures Name(id) == "#" + Print(id)
  {
  }

  lemma NameInjective(a: Id, b: Id)
    requires Name(a) == Name(b)
    ensures a == b
  {
    assert Name(a)[1..] == Print(a) && Name(b)[1..] == Print(b);
    PrintInjective(a, b);
  }

  predicate InPhase(s: State, l: Loop, p: Phase)
  {
    l in s.phase && s.phase[l] == p
  }

  predicate InBatch(s: State, l: Loop)
  {
    l in s.phase && s.phase[l].Dispatching?
  }

  predicate Enabled(s: State, a: Action)
  {
    match a
    case Accept(l) => InBatch(s, BASE) && l in s.phase
    case Poll(l, ready) =>
      InPhase(s, l, Polling) && forall c :: c in ready ==> c in s.conns && s.conns[c].loop == l && s.conns[c].interest
    case HandleEvent(l, id, _, _) => InBatch(s, l) && id in s.phase[l].active
    case Shutdown(l, id) => l in s.phase && s.phase[l] != Polling && id in s.conns && s.conns[id].loop == l
    case EndDispatch(l) => InPhase(s, l, Dispatching({}))
    case RunEstablish(l, id) => InPhase(s, l, RunningFunctors) && (l, Establish(id)) in s.mail
    case RunRemove(id) => InPhase(s, BASE, RunningFunctors) && (BASE, Remove(id)) in s.mail
    case RunDestroy(l, id) => InPhase(s, l, RunningFunctors) && (l, Destroy(id)) in s.mail
    case EndFunctors(l) => InPhase(s, l, RunningFunctors)
  }

  /** The assertions of the source on the way of an action. */
  predicate AssertionsHold(s: State, a: Action)
  {
    match a
    case Accept(l) => s.nextId !in s.conns
    case HandleEvent(l, id, _, closes) =>
      && id in s.conns && s.conns[id].loop == l
      && (closes ==> s.conns[id].state == Connected || s.conns[id].state == Disconnecting)
      && (closes && l == BASE ==> Name(id) in s.connectionMap)
    case RunEstablish(l, id) => id in s.conns && s.conns[id].loop == l && s.conns[id].state == Connecting
    case RunRemove(id) => id in s.conns && Name(id) in s.connectionMap
    case RunDestroy(l, id) =>
      id in s.conns && s.conns[id].loop == l && (s.conns[id].state != Connected ==> !s.conns[id].interest)
    case Poll(_, _) => true
    case Shutdown(_, _) => true
    case EndDispatch(_) => true
    case EndFunctors(_) => true
  }

  function Established(c: Conn): Conn
  {
    c.(state := Connected, interest := true, mapped := true)
  }

  function ShutDown(c: Conn): Conn
  {
    if c.state == Connected then c.(state := Disconnecting) else c
  }

  /** removeConnectionInLoop */
  function RemoveInLoop(s: State, id: Id): State
    requires id in s.conns
  {
    s.(connectionMap := s.connectionMap - {Name(id)}, mail := s.mail + multiset{(s.conns[id].loop, Destroy(id))})
  }

  /** handleClose with its close callback: runInLoop of the base loop runs at once when called in it. */
  function Close(s: State, id: Id): State
    requires id in s.conns
  {
    var closed := s.(conns := s.conns[id := s.conns[id].(state := Disconnected, interest := false)]);
    if s.conns[id].loop == BASE then RemoveInLoop(closed, id)
    else closed.(mail := closed.mail + multiset{(BASE, Remove(id))})
  }

  /** newConnection, with runInLoop of the loop the connection is given to. */
  function Accepted(s: State, l: Loop): State
  {
    var id, c := s.nextId, Conn(l, Connecting, false, false, 0);
    var added := s.(nextId := id + 1, connectionMap := s.connectionMap[Name(id) := id]);
    if l == BASE then added.(conns := s.conns[id := Established(c)])
    else added.(conns := s.conns[id := c], mail := s.mail + multiset{(l, Establish(id))})
  }

  function TakeEvent(s: State, l: Loop, id: Id): State
    requires InBatch(s, l)
  {
    s.(phase := s.phase[l := Dispatching(s.phase[l].active - {id})])
  }

  function ShutIf(s: State, id: Id, shuts: bool): State
    requires id in s.conns
  {
    if shuts then s.(conns := s.conns[id := ShutDown(s.conns[id])]) else s
  }

  /** A functor has run: it is no longer queued, and its loop still holds what it points to. */
  function Ran(s: State, l: Loop, m: Message): State
  {
    s.(mail := s.mail - multiset{(l, m)}, held := s.held + {(l, m.id)})
  }

  function Released(held: set<(Loop, Id)>, l: Loop): set<(Loop, Id)>
  {
    set h | h in held && h.0 != l
  }

  function Step(s: State, a: Action): State
    requires Enabled(s, a) && AssertionsHold(s, a)
  {
    match a
    case Accept(l) => Accepted(s, l)
    case Poll(l, ready) => s.(phase := s.phase[l := Dispatching(ready)])
    case HandleEvent(l, id, shuts, closes) =>
      var s1 := ShutIf(TakeEvent(s, l, id), id, shuts);
      if closes then Close(s1, id) else s1
    case Shutdown(l, id) => s.(conns := s.conns[id := ShutDown(s.conns[id])])
    case EndDispatch(l) => s.(phase := s.phase[l := RunningFunctors])
    case RunEstablish(l, id) =>
      Ran(s.(conns := s.conns[id := Established(s.conns[id])]), l, Establish(id))
    case RunRemove(id) => RemoveInLoop(Ran(s, BASE, Remove(id)), id)
    case RunDestroy(l, id) =>
      var c := s.conns[id];
      var c' := if c.state == Connected then c.(state := Disconnected, interest := false) else c;
      Ran(s.(conns := s.conns[id := c'.(mapped := false, destroyed := c.destroyed + 1)]), l, Destroy(id))
    case EndFunctors(l) => s.(phase := s.phase[l := Polling], held := Released(s.held, l))
  }

  predicate Start(s: State)
  {
    && BASE in s.phase && (forall l :: l in s.phase ==> s.phase[l] == Polling)
    && s.conns == map[] && s.connectionMap == map[] && s.mail == multiset{} && s.held == {} && s.nextId == 1
  }

  // ---- the life of one connection ----

  predicate Listed(s: State, id: Id)
  {
    Name(id) in s.connectionMap && s.connectionMap[Name(id)] == id
  }

  predicate MailIs(s: State, id: Id, l: Loop, establish: nat, remove: nat, destroy: nat)
  {
    && s.mail[(l, Establish(id))] == establish
    && s.mail[(BASE, Remove(id))] == remove
    && s.mail[(l, Destroy(id))] == destroy
  }

  /** Where a connection can be: at each moment exactly one thing - a message, or the connection being up - carries it
      to its next stage. */
  predicate Stage(s: State, id: Id)
    requires id in s.conns
  {
    var c := s.conns[id];
    match c.state
    case Connecting => MailIs(s, id, c.loop, 1, 0, 0) && Listed(s, id) && !c.mapped && !c.interest && c.destroyed == 0
    case Disconnected =>
      && !c.interest
      && ((MailIs(s, id, c.loop, 0, 1, 0) && Listed(s, id) && c.mapped && c.destroyed == 0)
       || (MailIs(s, id, c.loop, 0, 0, 1) && Name(id) !in s.connectionMap && c.mapped && c.destroyed == 0)
       || (MailIs(s, id, c.loop, 0, 0, 0) && Name(id) !in s.connectionMap && !c.mapped && c.destroyed == 1))
    case _ => MailIs(s, id, c.loop, 0, 0, 0) && Listed(s, id) && c.mapped && c.interest && c.destroyed == 0
  }

  predicate Addressed(s: State, e: (Loop, Message))
  {
    e.1.id in s.conns && e.0 == if e.1.Remove? then BASE else s.conns[e.1.id].loop
  }

  predicate ActiveAreUp(s: State, l: Loop)
    requires l in s.phase
  {
    s.phase[l].Dispatching? ==>
      forall c :: c in s.phase[l].active ==> c in s.conns && s.conns[c].loop == l && s.conns[c].interest
  }

  predicate Inv(s: State)
  {
    && (forall id :: id in s.conns ==> id < s.nextId && Stage(s, id))
    && (forall e :: e in s.mail ==> Addressed(s, e))
    && (forall n :: n in s.connectionMap ==> s.connectionMap[n] in s.conns && n == Name(s.connectionMap[n]))
    && (forall l :: l in s.phase ==> ActiveAreUp(s, l))
    && BASE in s.phase && forall id :: id in s.conns ==> s.conns[id].loop in s.phase
  }

  // ---- the steps, piece by piece ----

  lemma AssertionsFollow(s: State, a: Action)
    requires Inv(s) && Enabled(s, a)
    ensures AssertionsHold(s, a)
  {
    match a
    case Accept(l) =>
    case HandleEvent(l, id, shuts, closes) => assert ActiveAreUp(s, l) && Stage(s, id);
    case RunEstablish(l, id) => assert Addressed(s, (l, Establish(id))) && Stage(s, id);
    case RunRemove(id) => assert Addressed(s, (BASE, Remove(id))) && Stage(s, id);
    case RunDestroy(l, id) => assert Addressed(s, (l, Destroy(id))) && Stage(s, id);
    case Poll(_, _) =>
    case Shutdown(_, _) =>
    case EndDispatch(_) =>
    case EndFunctors(_) =>
  }

  /** Everything about connections other than id is the same in s and t. */
  ghost predicate SameElsewhere(s: State, t: State, id: Id)
  {
    && (forall c :: c != id ==> (c in s.conns <==> c in t.conns) && (c in s.conns ==> s.conns[c] == t.conns[c]))
    && (forall e: (Loop, Message) :: e.1.id != id ==> s.mail[e] == t.mail[e])
    && (forall n :: n != Name(id) ==>
          && (n in s.connectionMap <==> n in t.connectionMap)
          && (n in s.connectionMap ==> s.connectionMap[n] == t.connectionMap[n]))
    && t.phase == s.phase && s.nextId <= t.nextId
  }

  lemma StageElsewhere(s: State, t: State, id: Id, c: Id)
    requires SameElsewhere(s, t, id) && c != id && c in s.conns && Stage(s, c)
    ensures c in t.conns && Stage(t, c)
  {
    if Name(c) == Name(id) { NameInjective(c, id); }
    assert (s.conns[c].loop, Establish(c)).1.id != id;
  }

  /** A change of one connection keeps the invariant if its own stage, its messages and its entry are in order. */
  lemma OneConnection(s: State, t: State, id: Id)
    requires Inv(s) && SameElsewhere(s, t, id)
    requires id in t.conns && id < t.nextId && Stage(t, id) && t.conns[id].loop in t.phase
    requires id in s.conns ==> t.conns[id].loop == s.conns[id].loop
    requires forall e :: e in t.mail && e.1.id == id ==> Addressed(t, e)
    requires Name(id) in t.connectionMap ==> t.connectionMap[Name(id)] == id
    requires t.conns[id].interest || forall l :: l in s.phase && s.phase[l].Dispatching? ==> id !in s.phase[l].active
    ensures Inv(t)
  {
    hide Name, Stage;
    forall c | c in t.conns ensures c < t.nextId && Stage(t, c) {
      if c != id { StageElsewhere(s, t, id, c); }
    }
    forall e | e in t.mail ensures Addressed(t, e) {
      if e.1.id != id { assert e in s.mail && Addressed(s, e); }
    }
    forall n | n in t.connectionMap ensures t.connectionMap[n] in t.conns && n == Name(t.connectionMap[n]) {
      if n != Name(id) { assert n in s.connectionMap; }
    }
    forall l | l in t.phase ensures ActiveAreUp(t, l) {
      assert ActiveAreUp(s, l);
    }
  }

  lemma StageIgnoresPhase(s: State, t: State, id: Id)
    requires id in s.conns && Stage(s, id) && t == s.(phase := t.phase, held := t.held)
    ensures Stage(t, id)
  {
  }

  /** A change of phases, and of what finished functors hold, alone. */
  lemma OnlyPhase(s: State, t: State)
    requires Inv(s) && t == s.(phase := t.phase, held := t.held) && t.phase.Keys == s.phase.Keys
    requires forall l :: l in t.phase ==> ActiveAreUp(t, l)
    ensures Inv(t)
  {
    hide Name, Stage;
    forall id | id in t.conns ensures id < t.nextId && Stage(t, id) {
      StageIgnoresPhase(s, t, id);
    }
    forall e | e in t.mail ensures Addressed(t, e) {
      assert Addressed(s, e);
    }
  }

  lemma {:induction false} PollKeepsInv(s: State, l: Loop, ready: set<Id>)
    requires Inv(s) && Enabled(s, Poll(l, ready))
    ensures Inv(Step(s, Poll(l, ready)))
  {
    hide Stage, Name;
    var t := Step(s, Poll(l, ready));
    forall k | k in t.phase ensures ActiveAreUp(t, k) {
      assert ActiveAreUp(s, k);
    }
    OnlyPhase(s, t);
  }

  lemma PhaseEndKeepsInv(s: State, a: Action)
    requires Inv(s) && Enabled(s, a) && (a.EndDispatch? || a.EndFunctors?)
    ensures Inv(Step(s, a))
  {
    hide Stage, Name;
    var t := Step(s, a);
    forall k | k in t.phase ensures ActiveAreUp(t, k) {
      assert ActiveAreUp(s, k);
    }
    OnlyPhase(s, t);
  }

  lemma {:induction false} FreshId(s: State, id: Id)
    requires Inv(s) && id !in s.conns
    ensures forall e: (Loop, Message) :: e.1.id == id ==> s.mail[e] == 0
    ensures Name(id) !in s.connectionMap
    ensures forall l :: l in s.phase && s.phase[l].Dispatching? ==> id !in s.phase[l].active
  {
    hide Stage;
    forall l | l in s.phase && s.phase[l].Dispatching? ensures id !in s.phase[l].active {
      assert ActiveAreUp(s, l);
    }
    forall e: (Loop, Message) | e.1.id == id ensures s.mail[e] == 0 {
      assert e in s.mail ==> Addressed(s, e);
    }
    if Name(id) in s.connectionMap {
      NameInjective(id, s.connectionMap[Name(id)]);
    }
  }

  lemma AcceptKeepsInv(s: State, l: Loop)
    requires Inv(s) && Enabled(s, Accept(l)) && AssertionsHold(s, Accept(l))
    ensures Inv(Step(s, Accept(l)))
  {
    hide Name, Inv;
    var t, id := Step(s, Accept(l)), s.nextId;
    FreshId(s, id);
    OneConnection(s, t, id);
  }

  lemma ShutdownKeepsInv(s: State, l: Loop, id: Id)
    requires Inv(s) && Enabled(s, Shutdown(l, id))
    ensures Inv(Step(s, Shutdown(l, id)))
  {
    hide Name, Inv;
    var t := Step(s, Shutdown(l, id));
    Focus(s, id);
    OneConnection(s, t, id);
  }

  /** What the invariant says of one connection: all messages about it are the three its stage speaks of. */
  lemma Focus(s: State, id: Id)
    requires Inv(s) && id in s.conns
    ensures id < s.nextId && Stage(s, id) && s.conns[id].loop in s.phase && BASE in s.phase
    ensures s.conns[id].interest || forall l :: l in s.phase && s.phase[l].Dispatching? ==> id !in s.phase[l].active
    ensures forall e :: e in s.mail && e.1.id == id ==>
              e == (s.conns[id].loop, Establish(id)) || e == (BASE, Remove(id)) || e == (s.conns[id].loop, Destroy(id))
  {
    hide Stage, Name;
    forall l | l in s.phase && s.phase[l].Dispatching? && id in s.phase[l].active ensures s.conns[id].interest {
      assert ActiveAreUp(s, l);
    }
    forall e | e in s.mail && e.1.id == id
      ensures e == (s.conns[id].loop, Establish(id)) || e == (BASE, Remove(id)) || e == (s.conns[id].loop, Destroy(id))
    {
      assert Addressed(s, e);
    }
  }

  lemma EstablishKeepsInv(s: State, l: Loop, id: Id)
    requires Inv(s) && Enabled(s, RunEstablish(l, id)) && AssertionsHold(s, RunEstablish(l, id))
    ensures Inv(Step(s, RunEstablish(l, id)))
  {
    hide Name, Inv;
    var t := Step(s, RunEstablish(l, id));
    Focus(s, id);
    OneConnection(s, t, id);
  }

  lemma RemoveKeepsInv(s: State, id: Id)
    requires Inv(s) && Enabled(s, RunRemove(id)) && AssertionsHold(s, RunRemove(id))
    ensures Inv(Step(s, RunRemove(id)))
  {
    hide Name, Inv;
    var t := Step(s, RunRemove(id));
    Focus(s, id);
    OneConnection(s, t, id);
  }

  lemma DestroyKeepsInv(s: State, l: Loop, id: Id)
    requires Inv(s) && Enabled(s, RunDestroy(l, id)) && AssertionsHold(s, RunDestroy(l, id))
    ensures Inv(Step(s, RunDestroy(l, id)))
  {
    hide Name, Inv;
    var t := Step(s, RunDestroy(l, id));
    Focus(s, id);
    OneConnection(s, t, id);
  }

  /** The state while an event of id is handled: id is no longer among the active ones. */
  lemma HandlingKeepsInv(s: State, l: Loop, id: Id, shuts: bool, closes: bool)
    requires Inv(s) && Enabled(s, HandleEvent(l, id, shuts, closes))
    ensures var s1 := TakeEvent(s, l, id);
            Inv(s1) && forall k :: k in s1.phase && s1.phase[k].Dispatching? ==> id !in s1.phase[k].active
  {
    hide Stage, Name;
    var s1 := TakeEvent(s, l, id);
    forall k | k in s1.phase ensures ActiveAreUp(s1, k) {
      assert ActiveAreUp(s, k);
    }
    forall k | k in s1.phase && s1.phase[k].Dispatching? ensures id !in s1.phase[k].active {
      assert ActiveAreUp(s, k) && ActiveAreUp(s, l);
    }
    OnlyPhase(s, s1);
  }

  lemma CloseKeepsInv(s: State, id: Id)
    requires Inv(s) && id in s.conns && (s.conns[id].state == Connected || s.conns[id].state == Disconnecting)
    requires forall k :: k in s.phase && s.phase[k].Dispatching? ==> id !in s.phase[k].active
    ensures Inv(Close(s, id))
  {
    hide Name, Inv;
    var t := Close(s, id);
    Focus(s, id);
    OneConnection(s, t, id);
  }

  lemma EventKeepsInv(s: State, l: Loop, id: Id, shuts: bool, closes: bool)
    requires Inv(s)
    requires Enabled(s, HandleEvent(l, id, shuts, closes)) && AssertionsHold(s, HandleEvent(l, id, shuts, closes))
    ensures Inv(Step(s, HandleEvent(l, id, shuts, closes)))
  {
    hide Stage, Name, Inv;
    HandlingKeepsInv(s, l, id, shuts, closes);
    var s1 := TakeEvent(s, l, id);
    var s2 := ShutIf(s1, id, shuts);
    if shuts {
      assert s2 == Step(s1, Shutdown(l, id));
      ShutdownKeepsInv(s1, l, id);
    }
    if closes { CloseKeepsInv(s2, id); }
  }

  lemma StepKeepsInv(s: State, a: Action)
    requires Inv(s) && Enabled(s, a)
    ensures AssertionsHold(s, a) && Inv(Step(s, a))
  {
    AssertionsFollow(s, a);
    hide Inv, Step, Enabled, AssertionsHold;
    match a
    case Accept(l) => AcceptKeepsInv(s, l);
    case Poll(l, ready) => PollKeepsInv(s, l, ready);
    case HandleEvent(l, id, shuts, closes) => EventKeepsInv(s, l, id, shuts, closes);
    case Shutdown(l, id) => ShutdownKeepsInv(s, l, id);
    case EndDispatch(_) => PhaseEndKeepsInv(s, a);
    case EndFunctors(_) => PhaseEndKeepsInv(s, a);
    case RunEstablish(l, id) => EstablishKeepsInv(s, l, id);
    case RunRemove(id) => RemoveKeepsInv(s, id);
    case RunDestroy(l, id) => DestroyKeepsInv(s, l, id);
  }

  // ---- whole runs ----

  predicate Valid(s: State, run: seq<Action>)
    decreases |run|
  {
    run == [] || (Enabled(s, run[0]) && AssertionsHold(s, run[0]) && Valid(Step(s, run[0]), run[1..]))
  }

  function Run(s: State, run: seq<Action>): State
    requires Valid(s, run)
    decreases |run|
  {
    if run == [] then s else Run(Step(s, run[0]), run[1..])
  }

  /** An action that only asks for what the loops allow never meets a failing assertion, wherever a run has led: run
      may be continued by whatever is enabled. */
  lemma {:induction false} NoAssertionFails(s: State, run: seq<Action>, a: Action)
    requires Inv(s) && Valid(s, run) && Enabled(Run(s, run), a)
    ensures AssertionsHold(Run(s, run), a) && Inv(Step(Run(s, run), a))
    decreases |run|
  {
    hide Inv, Step, Enabled, AssertionsHold;
    if run == [] {
      StepKeepsInv(s, a);
    } else {
      StepKeepsInv(s, run[0]);
      NoAssertionFails(Step(s, run[0]), run[1..], a);
    }
  }

  lemma {:induction false} RunKeepsInv(s: State, run: seq<Action>)
    requires Inv(s) && Valid(s, run)
    ensures Inv(Run(s, run))
    decreases |run|
  {
    hide Inv, Step, Enabled, AssertionsHold;
    if run != [] {
      StepKeepsInv(s, run[0]);
      RunKeepsInv(Step(s, run[0]), run[1..]);
    }
  }

  lemma StartHasInv(s: State)
    requires Start(s)
    ensures Inv(s)
  {
  }

  /** The server, a queued functor, or a functor of a list not yet done with still holds a pointer to the connection. */
  predicate Referenced(s: State, id: Id)
  {
    Listed(s, id) || (exists e :: e in s.mail && e.1.id == id) || exists h :: h in s.held && h.1 == id
  }

  /** At every moment a connection has been destroyed once if it is closed and nothing is under way about it, and not at
      all otherwise. The last pointer to it is gone exactly when it has been destroyed and the functors that spoke of it
      are done with; a channel the poller still maps always has its connection. */
  lemma DestroyedExactlyWhen(s: State, run: seq<Action>, id: Id)
    requires Start(s) && Valid(s, run) && id in Run(s, run).conns
    ensures var t := Run(s, run); var c := t.conns[id];
            && c.destroyed <= 1
            && (c.destroyed == 1 <==> c.state == Disconnected && forall e :: e in t.mail ==> e.1.id != id)
            && (!Referenced(t, id) <==> c.destroyed == 1 && forall h :: h in t.held ==> h.1 != id)
            && (c.destroyed == 1 ==> !c.mapped && !c.interest)
            && (c.mapped <==> c.state != Connecting && c.destroyed == 0)
  {
    StartHasInv(s);
    RunKeepsInv(s, run);
    StageTells(Run(s, run), id);
  }

  lemma StageTells(t: State, id: Id)
    requires Inv(t) && id in t.conns
    ensures var c := t.conns[id];
            && c.destroyed <= 1
            && (c.destroyed == 1 <==> c.state == Disconnected && forall e :: e in t.mail ==> e.1.id != id)
            && (!Referenced(t, id) <==> c.destroyed == 1 && forall h :: h in t.held ==> h.1 != id)
            && (c.destroyed == 1 ==> !c.mapped && !c.interest)
            && (c.mapped <==> c.state != Connecting && c.destroyed == 0)
  {
    hide Name, Inv;
    Focus(t, id);
    var l := t.conns[id].loop;
    assert (l, Establish(id)).1.id == id && (BASE, Remove(id)).1.id == id && (l, Destroy(id)).1.id == id;
  }

  /** The erase in the base loop finds the entry of its own connection, and a new connection never takes another's. */
  lemma NamesDistinct(s: State, run: seq<Action>)
    requires Start(s) && Valid(s, run)
    ensures var t := Run(s, run);
            && Name(t.nextId) !in t.connectionMap
            && (forall n :: n in t.connectionMap ==> n == Name(t.connectionMap[n]) && t.connectionMap[n] in t.conns)
            && (forall a, b :: a in t.connectionMap && b in t.connectionMap && t.connectionMap[a] == t.connectionMap[b]
                               ==> a == b)
            && (forall e :: e in t.mail && e.1.Remove? ==> Listed(t, e.1.id))
  {
    hide Name, Stage;
    StartHasInv(s);
    RunKeepsInv(s, run);
    var t := Run(s, run);
    FreshId(t, t.nextId);
    forall e | e in t.mail && e.1.Remove? ensures Listed(t, e.1.id) {
      assert Addressed(t, e);
      RemoveIsListed(t, e.1.id);
    }
  }

  lemma RemoveIsListed(s: State, id: Id)
    requires Inv(s) && id in s.conns && (BASE, Remove(id)) in s.mail
    ensures Listed(s, id)
  {
    Focus(s, id);
  }

  /** connectionDestroyed runs in the connection's own loop, between batches, once it is closed, for the first time. */
  lemma DestroyIsLast(s: State, run: seq<Action>, l: Loop, id: Id)
    requires Start(s) && Valid(s, run) && Enabled(Run(s, run), RunDestroy(l, id))
    ensures var t := Run(s, run);
            && id in t.conns && t.conns[id] == Conn(l, Disconnected, false, true, 0)
            && Name(id) !in t.connectionMap && InPhase(t, l, RunningFunctors)
  {
    hide Name, Inv, Valid, Run;
    StartHasInv(s);
    RunKeepsInv(s, run);
    var t := Run(s, run);
    IsAddressed(t, (l, Destroy(id)));
    Focus(t, id);
  }

  lemma IsAddressed(s: State, e: (Loop, Message))
    requires Inv(s) && e in s.mail
    ensures Addressed(s, e)
  {
  }

  // ---- what a run has done to one connection ----

  function One(b: bool): nat
  {
    if b then 1 else 0
  }

  predicate Closed(s: State, id: Id)
  {
    id in s.conns && s.conns[id].state == Disconnected
  }

  function Destroyed(s: State, id: Id): nat
  {
    if id in s.conns then s.conns[id].destroyed else 0
  }

  predicate IsClose(a: Action, id: Id)
  {
    a.HandleEvent? && a.id == id && a.closes
  }

  predicate IsDestroy(a: Action, id: Id)
  {
    a.RunDestroy? && a.id == id
  }

  function Closes(run: seq<Action>, id: Id): nat
  {
    if run == [] then 0 else One(IsClose(run[0], id)) + Closes(run[1..], id)
  }

  function Destroys(run: seq<Action>, id: Id): nat
  {
    if run == [] then 0 else One(IsDestroy(run[0], id)) + Destroys(run[1..], id)
  }

  /** The part of a step that concerns connection id. */
  function Next(c: Conn, a: Action, id: Id): Conn
  {
    match a
    case HandleEvent(_, i, shuts, closes) =>
      if i != id then c
      else
        var c' := if shuts then ShutDown(c) else c;
        if closes then c'.(state := Disconnected, interest := false) else c'
    case Shutdown(_, i) => if i == id then ShutDown(c) else c
    case RunEstablish(_, i) => if i == id then Established(c) else c
    case RunDestroy(_, i) =>
      if i != id then c
      else
        var c' := if c.state == Connected then c.(state := Disconnected, interest := false) else c;
        c'.(mapped := false, destroyed := c.destroyed + 1)
    case _ => c
  }

  lemma EventOnOne(s: State, a: Action, id: Id)
    requires a.HandleEvent? && Enabled(s, a) && AssertionsHold(s, a)
    ensures Step(s, a).conns.Keys == s.conns.Keys
    ensures id in s.conns ==> Step(s, a).conns[id] == Next(s.conns[id], a, id)
  {
    hide Name, ShutDown;
    var s1 := ShutIf(TakeEvent(s, a.l, a.id), a.id, a.shuts);
    assert s1.conns.Keys == s.conns.Keys;
    if a.closes { CloseOnOne(s1, a.id, id); }
  }

  lemma CloseOnOne(s: State, closed: Id, id: Id)
    requires closed in s.conns
    ensures Close(s, closed).conns.Keys == s.conns.Keys
    ensures id in s.conns ==>
              Close(s, closed).conns[id] ==
                if id == closed then s.conns[id].(state := Disconnected, interest := false) else s.conns[id]
  {
    hide Name;
  }

  lemma FunctorOnOne(s: State, a: Action, id: Id)
    requires (a.RunEstablish? || a.RunRemove? || a.RunDestroy?) && Enabled(s, a) && AssertionsHold(s, a)
    ensures Step(s, a).conns.Keys == s.conns.Keys
    ensures id in s.conns ==> Step(s, a).conns[id] == Next(s.conns[id], a, id)
  {
    hide Name;
  }

  lemma AcceptOnOne(s: State, a: Action, id: Id)
    requires a.Accept? && Enabled(s, a) && AssertionsHold(s, a)
    ensures Step(s, a).conns.Keys == s.conns.Keys + {s.nextId}
    ensures id in s.conns ==> Step(s, a).conns[id] == s.conns[id]
    ensures Step(s, a).conns[s.nextId].state != Disconnected && Step(s, a).conns[s.nextId].destroyed == 0
  {
    hide Name;
  }

  lemma StepOnOne(s: State, a: Action, id: Id)
    requires Enabled(s, a) && AssertionsHold(s, a)
    ensures Step(s, a).conns.Keys == if a.Accept? then s.conns.Keys + {s.nextId} else s.conns.Keys
    ensures id in s.conns ==> Step(s, a).conns[id] == Next(s.conns[id], a, id)
    ensures a.Accept? ==>
              Step(s, a).conns[s.nextId].state != Disconnected && Step(s, a).conns[s.nextId].destroyed == 0
  {
    hide Step, Enabled, AssertionsHold;
    match a
    case HandleEvent(_, _, _, _) => EventOnOne(s, a, id);
    case Accept(_) => AcceptOnOne(s, a, id);
    case RunEstablish(_, _) => FunctorOnOne(s, a, id);
    case RunRemove(_) => FunctorOnOne(s, a, id);
    case RunDestroy(_, _) => FunctorOnOne(s, a, id);
    case _ => OtherOnOne(s, a, id);
  }

  lemma OtherOnOne(s: State, a: Action, id: Id)
    requires a.Poll? || a.Shutdown? || a.EndDispatch? || a.EndFunctors?
    requires Enabled(s, a) && AssertionsHold(s, a)
    ensures Step(s, a).conns.Keys == s.conns.Keys
    ensures id in s.conns ==> Step(s, a).conns[id] == Next(s.conns[id], a, id)
  {
    hide Name, ShutDown;
  }

  lemma StepCounts(s: State, a: Action, id: Id)
    requires Inv(s) && Enabled(s, a) && AssertionsHold(s, a)
    ensures One(Closed(Step(s, a), id)) == One(Closed(s, id)) + One(IsClose(a, id))
    ensures Destroyed(Step(s, a), id) == Destroyed(s, id) + One(IsDestroy(a, id))
  {
    hide Name, Inv, Step;
    StepOnOne(s, a, id);
    if id in s.conns { Focus(s, id); }
  }

  lemma {:induction false} RunCounts(s: State, run: seq<Action>, id: Id)
    requires Inv(s) && Valid(s, run)
    ensures One(Closed(Run(s, run), id)) == One(Closed(s, id)) + Closes(run, id)
    ensures Destroyed(Run(s, run), id) == Destroyed(s, id) + Destroys(run, id)
    decreases |run|
  {
    hide Inv, Step, Enabled, AssertionsHold, Closed, Destroyed, One, IsClose, IsDestroy;
    if run != [] {
      StepCounts(s, run[0], id);
      StepKeepsInv(s, run[0]);
      RunCounts(Step(s, run[0]), run[1..], id);
    }
  }

  /** In a whole run a connection is closed at most once and destroyed at most once, and never destroyed unless closed.
      When the functors that speak of it have run, the two counts agree. */
  lemma ClosedAndDestroyedOnce(s: State, run: seq<Action>, id: Id)
    requires Start(s) && Valid(s, run)
    ensures Destroys(run, id) <= Closes(run, id) <= 1
    ensures (forall e :: e in Run(s, run).mail ==> e.1.id != id) ==> Destroys(run, id) == Closes(run, id)
  {
    hide Name, Inv, Stage;
    StartHasInv(s);
    RunCounts(s, run, id);
    if id in Run(s, run).conns { DestroyedExactlyWhen(s, run, id); }
  }

  // ---- when the destructor runs ----

  lemma StepHolds(s: State, a: Action)
    requires Enabled(s, a) && AssertionsHold(s, a) && !a.EndFunctors?
    ensures s.held <= Step(s, a).held
    ensures a.RunDestroy? ==> exists h :: h in Step(s, a).held && h.1 == a.id
  {
    hide Name;
    if a.RunDestroy? { assert (a.l, a.id) in Step(s, a).held; }
  }

  /** The last pointer to a connection goes only when a loop is done with a list of functors: never during events, never
      inside a functor. The connection has then been destroyed, so the assertions of its destructor and its channel's
      hold. */
  lemma DestructorAfterFunctors(s: State, a: Action, id: Id)
    requires Inv(s) && Enabled(s, a) && AssertionsHold(s, a) && id in s.conns
    requires Referenced(s, id) && !Referenced(Step(s, a), id)
    ensures a.EndFunctors? && s.conns[id].state == Disconnected && !s.conns[id].mapped && s.conns[id].destroyed == 1
  {
    hide Name, Inv, Stage, Step, Listed, Enabled, AssertionsHold;
    StepKeepsInv(s, a);
    StepOnOne(s, a, id);
    StageTells(s, id);
    StageTells(Step(s, a), id);
    if !a.EndFunctors? { StepHolds(s, a); }
  }

  // ---- what one step does to one connection ----

  /** In the server's own terms: whom a step takes from which state to which. */
  lemma StatesOf(s: State, a: Action, id: Id)
    requires Inv(s) && Enabled(s, a) && AssertionsHold(s, a) && id in s.conns
    ensures id in Step(s, a).conns
    ensures var was, now := s.conns[id].state, Step(s, a).conns[id].state;
            if a.HandleEvent? && a.id == id && a.closes then now == Disconnected
            else if ((a.HandleEvent? && a.shuts) || a.Shutdown?) && a.id == id then
              now == if was == Connected then Disconnecting else was
            else if a.RunEstablish? && a.id == id then was == Connecting && now == Connected
            else now == was
    ensures Step(s, a).conns[id].loop == s.conns[id].loop
  {
    hide Inv, Step, Name;
    StepOnOne(s, a, id);
    if a.RunDestroy? && a.id == id { DestroysClosed(s, a.l, id); }
  }

  lemma DestroysClosed(s: State, l: Loop, id: Id)
    requires Inv(s) && Enabled(s, RunDestroy(l, id)) && id in s.conns
    ensures s.conns[id].state == Disconnected
  {
    hide Name;
    IsAddressed(s, (l, Destroy(id)));
    Focus(s, id);
  }

  function Active(s: State, l: Loop): set<Id>
  {
    if InBatch(s, l) then s.phase[l].active else {}
  }

  /** Polls of loop l that report id, and events of id that it handles. */
  function Reports(run: seq<Action>, l: Loop, id: Id): nat
  {
    if run == [] then 0 else One(run[0].Poll? && run[0].l == l && id in run[0].ready) + Reports(run[1..], l, id)
  }

  function Handled(run: seq<Action>, l: Loop, id: Id): nat
  {
    if run == [] then 0 else One(run[0].HandleEvent? && run[0].l == l && run[0].id == id) + Handled(run[1..], l, id)
  }

  lemma StepReports(s: State, a: Action, l: Loop, id: Id)
    requires Enabled(s, a) && AssertionsHold(s, a)
    ensures One(id in Active(Step(s, a), l)) + One(a.HandleEvent? && a.l == l && a.id == id)
         == One(id in Active(s, l)) + One(a.Poll? && a.l == l && id in a.ready)
  {
    PhaseOf(s, a);
    hide Step, AssertionsHold;
  }

  lemma PhaseAfterEvent(s: State, a: Action)
    requires a.HandleEvent? && Enabled(s, a) && AssertionsHold(s, a)
    ensures Step(s, a).phase == s.phase[a.l := Dispatching(s.phase[a.l].active - {a.id})]
  {
    hide Name, ShutDown;
  }

  lemma PhaseAfterFunctor(s: State, a: Action)
    requires a.RunEstablish? || a.RunRemove? || a.RunDestroy?
    requires Enabled(s, a) && AssertionsHold(s, a)
    ensures Step(s, a).phase == s.phase
  {
    hide Name, Established;
  }

  lemma PhaseAfterCall(s: State, a: Action)
    requires a.Accept? || a.Shutdown?
    requires Enabled(s, a) && AssertionsHold(s, a)
    ensures Step(s, a).phase == s.phase
  {
    hide Name, Established, ShutDown;
  }

  /** What each action does to the phases of the loops. */
  lemma PhaseOf(s: State, a: Action)
    requires Enabled(s, a) && AssertionsHold(s, a)
    ensures match a
            case Poll(l, ready) => Step(s, a).phase == s.phase[l := Dispatching(ready)]
            case HandleEvent(l, id, _, _) =>
              InBatch(s, l) && Step(s, a).phase == s.phase[l := Dispatching(s.phase[l].active - {id})]
            case EndDispatch(l) => Step(s, a).phase == s.phase[l := RunningFunctors]
            case EndFunctors(l) => Step(s, a).phase == s.phase[l := Polling]
            case _ => Step(s, a).phase == s.phase
  {
    hide Name, AssertionsHold, Accepted, TakeEvent, ShutIf, Close, RemoveInLoop, Ran, Established, ShutDown;
    if a.HandleEvent? { PhaseAfterEvent(s, a); }
    else if a.RunEstablish? || a.RunRemove? || a.RunDestroy? { PhaseAfterFunctor(s, a); }
    else if a.Accept? || a.Shutdown? { PhaseAfterCall(s, a); }
  }

  /** No report is lost and none is handled twice: in every run, a loop has handled as many events of a connection as
      its polls have reported, but for one that is still to come in the batch at hand. */
  lemma {:induction false} ReportsHandled(s: State, run: seq<Action>, l: Loop, id: Id)
    requires Valid(s, run)
    ensures One(id in Active(Run(s, run), l)) + Handled(run, l, id) == One(id in Active(s, l)) + Reports(run, l, id)
    decreases |run|
  {
    hide Step, Enabled, AssertionsHold, Active;
    if run != [] {
      StepReports(s, run[0], l, id);
      ReportsHandled(Step(s, run[0]), run[1..], l, id);
    }
  }

  /** From every reachable state a loop left to itself comes to epoll_wait, with nothing held by functors it has run. */
  lemma ReachPolling(s: State, l: Loop) returns (run: seq<Action>)
    requires Inv(s) && l in s.phase
    ensures Valid(s, run) && InPhase(Run(s, run), l, Polling) && forall h :: h in Run(s, run).held ==> h.0 != l
  {
    run := ReachFunctors(s, l);
    RunKeepsInv(s, run);
    var t := Run(s, run);
    AssertionsFollow(t, EndFunctors(l));
    run := OneMore(s, run, EndFunctors(l));
  }

  // ---- progress ----

  /** How many functors are still to run before a closed connection is destroyed. */
  function Owed(s: State, id: Id): nat
    requires id in s.conns
  {
    if s.conns[id].destroyed > 0 then 0 else if Listed(s, id) then 2 else 1
  }

  predicate IsAbout(a: Action, id: Id)
  {
    (a.RunRemove? && a.id == id) || (a.RunDestroy? && a.id == id)
  }

  function About(run: seq<Action>, id: Id): nat
  {
    if run == [] then 0 else One(IsAbout(run[0], id)) + About(run[1..], id)
  }

  lemma CloseUnlists(s: State, closed: Id, id: Id)
    requires closed in s.conns && id != closed
    ensures Listed(Close(s, closed), id) <==> Listed(s, id)
  {
    if Name(id) == Name(closed) { NameInjective(id, closed); }
    hide Name;
  }

  lemma EventListed(s: State, a: Action, id: Id)
    requires a.HandleEvent? && Enabled(s, a) && AssertionsHold(s, a) && id != a.id
    ensures Listed(Step(s, a), id) <==> Listed(s, id)
  {
    hide Name;
    var s1 := ShutIf(TakeEvent(s, a.l, a.id), a.id, a.shuts);
    if a.closes { CloseUnlists(s1, a.id, id); }
  }

  lemma SameMap(s: State, a: Action)
    requires !a.HandleEvent? && !a.Accept? && !a.RunRemove? && Enabled(s, a) && AssertionsHold(s, a)
    ensures Step(s, a).connectionMap == s.connectionMap
  {
    hide Name, Established, ShutDown;
  }

  lemma MapAfter(s: State, a: Action)
    requires (a.Accept? || a.RunRemove?) && Enabled(s, a) && AssertionsHold(s, a)
    ensures Step(s, a).connectionMap ==
              if a.Accept? then s.connectionMap[Name(s.nextId) := s.nextId] else s.connectionMap - {Name(a.id)}
  {
    hide Name, Established;
  }

  lemma OtherListed(s: State, a: Action, id: Id)
    requires !a.HandleEvent? && Enabled(s, a) && AssertionsHold(s, a) && id in s.conns
    ensures Listed(Step(s, a), id) <==> Listed(s, id) && !(a.RunRemove? && a.id == id)
  {
    if a.Accept? || a.RunRemove? {
      var other := if a.Accept? then s.nextId else a.id;
      MapAfter(s, a);
      if Name(id) == Name(other) { NameInjective(id, other); }
    } else {
      SameMap(s, a);
    }
    hide Name, Step, Enabled;
  }

  lemma ClosedIsNotActive(s: State, a: Action, id: Id)
    requires Inv(s) && Enabled(s, a) && AssertionsHold(s, a) && Closed(s, id)
    ensures a.HandleEvent? || a.RunEstablish? ==> a.id != id
    ensures a.RunRemove? && a.id == id ==> Owed(s, id) == 2
    ensures a.RunDestroy? && a.id == id ==> Owed(s, id) == 1
  {
    hide Name;
    Focus(s, id);
    if a.HandleEvent? { assert ActiveAreUp(s, a.l); }
    if a.RunDestroy? { assert Addressed(s, (a.l, Destroy(a.id))); }
  }

  lemma StepOwes(s: State, a: Action, id: Id)
    requires Inv(s) && Enabled(s, a) && AssertionsHold(s, a) && Closed(s, id)
    ensures Closed(Step(s, a), id) && Owed(Step(s, a), id) + One(IsAbout(a, id)) == Owed(s, id)
  {
    hide Name, Inv, Stage, Step, Listed, Enabled, AssertionsHold;
    ClosedIsNotActive(s, a, id);
    StepOnOne(s, a, id);
    if a.HandleEvent? { EventListed(s, a, id); } else { OtherListed(s, a, id); }
  }

  /** From the moment a connection is closed, whatever the loops do: each functor run about it, and nothing else, brings
      it one step nearer to its destruction, and when none is owed it is destroyed. */
  lemma {:induction false} RunOwes(s: State, run: seq<Action>, id: Id)
    requires Inv(s) && Closed(s, id) && Valid(s, run)
    ensures var t := Run(s, run);
            && Closed(t, id) && Owed(t, id) + About(run, id) == Owed(s, id) <= 2
            && (t.conns[id].destroyed == 1 <==> About(run, id) == Owed(s, id))
    decreases |run|
  {
    hide Inv, Step, Enabled, AssertionsHold, Listed;
    StageTells(s, id);
    if run != [] {
      hide Owed, Closed, IsAbout, Referenced;
      StepOwes(s, run[0], id);
      StepKeepsInv(s, run[0]);
      RunOwes(Step(s, run[0]), run[1..], id);
    }
  }

  lemma {:induction false} RunConcat(s: State, first: seq<Action>, second: seq<Action>)
    requires Valid(s, first) && Valid(Run(s, first), second)
    ensures Valid(s, first + second) && Run(s, first + second) == Run(Run(s, first), second)
    decreases |first|
  {
    hide Step, Enabled, AssertionsHold;
    if first == [] {
      assert first + second == second;
    } else {
      assert (first + second)[1..] == first[1..] + second && (first + second)[0] == first[0];
      RunConcat(Step(s, first[0]), first[1..], second);
    }
  }

  lemma OneMore(s: State, run: seq<Action>, a: Action) returns (longer: seq<Action>)
    requires Valid(s, run) && Enabled(Run(s, run), a) && AssertionsHold(Run(s, run), a)
    ensures Valid(s, longer) && Run(s, longer) == Step(Run(s, run), a)
  {
    hide Step, Enabled, AssertionsHold;
    var t := Run(s, run);
    assert [a][1..] == [] && Run(Step(t, a), []) == Step(t, a);
    assert Valid(t, [a]) && Run(t, [a]) == Run(Step(t, a), [a][1..]);
    RunConcat(s, run, [a]);
    longer := run + [a];
  }

  /** s with loop l running functors. */
  function Calling(s: State, l: Loop): State
  {
    s.(phase := s.phase[l := RunningFunctors])
  }

  /** A loop, left to itself, comes to its functors: it handles the events it has, without sending or closing
      anything. */
  lemma {:induction false} ReachFunctors(s: State, l: Loop) returns (run: seq<Action>)
    requires Inv(s) && l in s.phase
    ensures Valid(s, run) && Run(s, run) == Calling(s, l)
    decreases if InBatch(s, l) then |s.phase[l].active| else 0, s.phase[l].Polling?
  {
    hide Inv, Name;
    if s.phase[l].RunningFunctors? {
      run := [];
      assert s.phase[l := RunningFunctors] == s.phase;
    } else {
      var a :=
        if s.phase[l].Polling? then Poll(l, {})
        else if s.phase[l].active == {} then EndDispatch(l)
        else var c :| c in s.phase[l].active; HandleEvent(l, c, false, false);
      AssertionsFollow(s, a);
      StepKeepsInv(s, a);
      var t := Step(s, a);
      assert Calling(t, l) == Calling(s, l);
      var rest: seq<Action>;
      if s.phase[l].Polling? || s.phase[l].active != {} {
        rest := ReachFunctors(t, l);
      } else {
        rest := [];
        assert t == Calling(s, l);
      }
      run := [a] + rest;
      assert run[1..] == rest;
    }
  }

  /** The base loop comes to its functors and takes the connection off the map. */
  lemma DeliverRemove(s: State, id: Id) returns (run: seq<Action>)
    requires Inv(s) && Closed(s, id) && s.conns[id].destroyed == 0 && Listed(s, id)
    ensures Valid(s, run) && Closed(Run(s, run), id) && Owed(Run(s, run), id) == 1
  {
    Focus(s, id);
    run := ReachFunctors(s, BASE);
    RunKeepsInv(s, run);
    var t := Run(s, run);
    var a := RunRemove(id);
    assert Enabled(t, a);
    AssertionsFollow(t, a);
    StepOwes(t, a, id);
    hide Step, Inv, Stage;
    run := OneMore(s, run, a);
  }

  /** Its own loop comes to its functors and destroys it. */
  lemma DeliverDestroy(s: State, id: Id) returns (run: seq<Action>)
    requires Inv(s) && Closed(s, id) && Owed(s, id) == 1
    ensures Valid(s, run) && Closed(Run(s, run), id) && Owed(Run(s, run), id) == 0
  {
    Focus(s, id);
    var l := s.conns[id].loop;
    run := ReachFunctors(s, l);
    RunKeepsInv(s, run);
    var t := Run(s, run);
    var a := RunDestroy(l, id);
    assert Enabled(t, a);
    AssertionsFollow(t, a);
    StepOwes(t, a, id);
    hide Step, Inv, Stage;
    run := OneMore(s, run, a);
  }

  /** From every reachable state each closed connection can be destroyed, by letting the loops that have a functor about
      it come to it. */
  lemma ClosedIsDestroyed(s: State, id: Id) returns (run: seq<Action>)
    requires Inv(s) && Closed(s, id)
    ensures Valid(s, run) && id in Run(s, run).conns && Run(s, run).conns[id].destroyed == 1
  {
    StageTells(s, id);
    hide Inv, Stage, Listed, Referenced;
    run := [];
    if Owed(s, id) == 2 { run := DeliverRemove(s, id); }
    RunKeepsInv(s, run);
    var t := Run(s, run);
    if Owed(t, id) == 1 {
      var rest := DeliverDestroy(t, id);
      RunConcat(s, run, rest);
      run := run + rest;
    }
    RunKeepsInv(s, run);
    StageTells(Run(s, run), id);
  }

  // ---- one batch of events ----

  /** All along the run loop l is inside the same batch. */
  predicate WithinBatch(s: State, run: seq<Action>, l: Loop)
    requires Valid(s, run)
    decreases |run|
  {
    InBatch(s, l) && (run != [] ==> WithinBatch(Step(s, run[0]), run[1..], l))
  }

  lemma StepWithinBatch(s: State, a: Action, l: Loop, id: Id)
    requires Inv(s) && Enabled(s, a) && AssertionsHold(s, a) && InBatch(s, l)
    requires id in s.conns && s.conns[id].loop == l && s.conns[id].mapped
    ensures id in Step(s, a).conns && Step(s, a).conns[id].loop == l && Step(s, a).conns[id].mapped
    ensures Step(s, a).conns[id].destroyed == s.conns[id].destroyed
  {
    hide Name, Inv, Step;
    StepOnOne(s, a, id);
  }

  /** No channel of a loop is deregistered while the loop is handling a batch of events, the batch that closed its
      connection included, however the other loops act meanwhile. */
  lemma {:induction false} BatchKeepsChannels(s: State, run: seq<Action>, l: Loop, id: Id)
    requires Inv(s) && Valid(s, run) && WithinBatch(s, run, l)
    requires id in s.conns && s.conns[id].loop == l && s.conns[id].mapped
    ensures var t := Run(s, run);
            && id in t.conns && t.conns[id].loop == l && t.conns[id].mapped
            && t.conns[id].destroyed == s.conns[id].destroyed
    decreases |run|
  {
    hide Inv, Step, Enabled, AssertionsHold;
    if run != [] {
      StepWithinBatch(s, run[0], l, id);
      StepKeepsInv(s, run[0]);
      BatchKeepsChannels(Step(s, run[0]), run[1..], l, id);
    }
  }

  /** A channel whose event is still to be handled is mapped and registered. */
  lemma ActiveIsRegistered(s: State, run: seq<Action>, l: Loop, id: Id)
    requires Start(s) && Valid(s, run) && InBatch(Run(s, run), l) && id in Run(s, run).phase[l].active
    ensures id in Run(s, run).conns && Run(s, run).conns[id].mapped && Run(s, run).conns[id].interest
  {
    hide Name;
    StartHasInv(s);
    RunKeepsInv(s, run);
    var t := Run(s, run);
    assert ActiveAreUp(t, l);
    Focus(t, id);
  }

  // ---- the server's own methods ----

  /** The connection map and counter of the server, and the connections and queued functors its methods act on. */
  class Server {
    var connectionMap: map<string, Id>
    var nextConnectionId: Id
    var conns: map<Id, Conn>
    var mail: multiset<(Loop, Message)>
    ghost var phase: map<Loop, Phase>
    ghost var held: set<(Loop, Id)>

    ghost function Now(): State
      reads this
    {
      State(phase, conns, connectionMap, nextConnectionId, mail, held)
    }

    /** A server with loops base and io loops about to poll. */
    constructor (ghost loops: set<Loop>)
      requires BASE in loops
      ensures Start(Now()) && phase.Keys == loops
    {
      connectionMap, nextConnectionId, conns, mail := map[], 1, map[], multiset{};
      phase, held := map l | l in loops :: Polling, {};
    }

    method ConnectionEstablished(id: Id)
      requires id in conns
      modifies this`conns
      ensures conns == old(conns)[id := Established(old(conns)[id])]
      ensures conns[id] == old(conns)[id].(state := Connected, interest := true, mapped := true)
    {
      var c := conns[id].(state := Connected);
      c := c.(mapped := true, interest := true);
      conns := conns[id := c];
    }

    /** newConnection in the base loop, l being the next loop of the pool. */
    method NewConnection(l: Loop)
      modifies this`connectionMap, this`nextConnectionId, this`conns, this`mail
      ensures Now() == Accepted(old(Now()), l)
      ensures var id := old(nextConnectionId);
              && nextConnectionId == id + 1 && connectionMap == old(connectionMap)["#" + Print(id) := id]
              && conns == old(conns)[id := if l == BASE then Conn(l, Connected, true, true, 0)
                                           else Conn(l, Connecting, false, false, 0)]
              && mail == old(mail) + (if l == BASE then multiset{} else multiset{(l, Establish(id))})
    {
      NameIs(nextConnectionId);
      hide Name, Print;
      var id := nextConnectionId;
      nextConnectionId := nextConnectionId + 1;
      connectionMap := connectionMap[Name(id) := id];
      conns := conns[id := Conn(l, Connecting, false, false, 0)];
      if l == BASE {
        ConnectionEstablished(id);
        assert conns == old(conns)[id := Established(Conn(l, Connecting, false, false, 0))];
      } else {
        mail := mail + multiset{(l, Establish(id))};
      }
    }

    /** The number of entries erased is what the source asserts to be one. */
    method RemoveConnectionInLoop(id: Id) returns (erased: nat)
      requires id in conns
      modifies this`connectionMap, this`mail
      ensures Now() == RemoveInLoop(old(Now()), id)
      ensures connectionMap == old(connectionMap) - {"#" + Print(id)}
      ensures mail == old(mail) + multiset{(conns[id].loop, Destroy(id))}
      ensures erased == One(Name(id) in old(connectionMap)) == |old(connectionMap)| - |connectionMap|
    {
      NameIs(id);
      hide Name, Print;
      erased := if Name(id) in connectionMap then 1 else 0;
      ghost var was := connectionMap;
      connectionMap := connectionMap - {Name(id)};
      assert was.Keys == if erased == 1 then connectionMap.Keys + {Name(id)} else connectionMap.Keys;
      assert |was| == |was.Keys| && |connectionMap| == |connectionMap.Keys|;
      mail := mail + multiset{(conns[id].loop, Destroy(id))};
    }

    /** handleClose in the connection's own loop, with the close callback the server installed: removeConnection runs
        its functor at once in the base loop and queues it in any other. */
    method HandleClose(id: Id)
      requires id in conns && Inv(Now())
      requires conns[id].state == Connected || conns[id].state == Disconnecting
      modifies this`connectionMap, this`mail, this`conns
      ensures Now() == Close(old(Now()), id)
      ensures conns == old(conns)[id := old(conns)[id].(state := Disconnected, interest := false)]
      ensures if old(conns)[id].loop == BASE
              then connectionMap == old(connectionMap) - {"#" + Print(id)}
                   && mail == old(mail) + multiset{(BASE, Destroy(id))}
              else connectionMap == old(connectionMap) && mail == old(mail) + multiset{(BASE, Remove(id))}
    {
      Focus(Now(), id);
      hide Inv, Name, Stage, MailIs;
      conns := conns[id := conns[id].(state := Disconnected, interest := false)];
      if conns[id].loop == BASE {
        var erased := RemoveConnectionInLoop(id);
        assert erased == 1;
      } else {
        mail := mail + multiset{(BASE, Remove(id))};
      }
    }
  }
}
