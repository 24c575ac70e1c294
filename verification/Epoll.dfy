/** Channels and the poller that registers them with the kernel: the channel map, the status kept in each channel, and
    the interest set inside the kernel, changed by ADD, MOD and DEL. */
module Epoll {
  datatype Interest = Interest(read: bool, write: bool)

  const NONE := Interest(false, false)

  /** kNew: not in the channel map; kAdded: in the map and in the kernel; kDeleted: in the map only. */
  datatype Status = New | Added | Deleted

  datatype Ctl = CtlAdd | CtlMod | CtlDel

  datatype Operation = EnableReading | EnableWriting | DisableWriting | DisableAll

  // ---- one channel, on values ----

  datatype Slot = Slot(status: Status, events: Interest)

  function Events(e: Interest, op: Operation): Interest
  {
    match op
    case EnableReading => e.(read := true)
    case EnableWriting => e.(write := true)
    case DisableWriting => e.(write := false)
    case DisableAll => NONE
  }

  /** updateChannel, with the interest already changed. */
  function Update(s: Slot): Slot
  {
    s.(status := if s.status == Added && s.events == NONE then Deleted else Added)
  }

  function Apply(s: Slot, op: Operation): Slot
  {
    Update(Slot(s.status, Events(s.events, op)))
  }

  function ApplyAll(s: Slot, ops: seq<Operation>): Slot
  {
    if ops == [] then s else Apply(ApplyAll(s, ops[..|ops|-1]), ops[|ops|-1])
  }

  /** An operation that leaves no interest takes the descriptor out of the kernel exactly when it was in there; on a
      channel that is not registered it registers the descriptor with an empty mask instead. */
  lemma EmptyMaskExactlyWhen(s: Slot, op: Operation)
    ensures Apply(s, op) == Slot(Added, NONE) <==> s.status != Added && Events(s.events, op) == NONE
    ensures Apply(s, op).status == Deleted <==> s.status == Added && Events(s.events, op) == NONE
  {
  }

  /** Repeated disableAll: the descriptor is out of the kernel after an odd number of calls and back in after an even
      number, starting from a registered channel. */
  lemma {:induction false} DisableAllToggles(s: Slot, n: nat)
    requires s.status == Added
    ensures ApplyAll(s, seq(n, i => DisableAll)).status == if n % 2 == 1 then Deleted else Added
  {
    if n > 0 {
      var ops := seq(n, i => DisableAll);
      assert ops[..n-1] == seq(n - 1, i => DisableAll);
      DisableAllToggles(s, n - 1);
      if n > 1 { EventsAfterDisable(s, n - 1); }
    }
  }

  lemma EventsAfterDisable(s: Slot, n: nat)
    requires n > 0
    ensures ApplyAll(s, seq(n, i => DisableAll)).events == NONE
  {
    assert seq(n, i => DisableAll)[n-1] == DisableAll;
  }

  /** Without interest while unmapped or deleted; the converse of what the assertions in updateChannel check. */
  predicate Sound(s: Slot)
  {
    s.status != Added ==> s.events == NONE
  }

  lemma {:induction false} SoundForever(s: Slot, ops: seq<Operation>)
    requires Sound(s)
    ensures Sound(ApplyAll(s, ops)) && (ops != [] ==> ApplyAll(s, ops).status != New)
  {
    if ops != [] { SoundForever(s, ops[..|ops|-1]); }
  }

  // ---- the classes ----

  /** What epoll_wait reports for a descriptor. */
  datatype Revents = Revents(input: bool, pri: bool, output: bool, err: bool, hup: bool, rdhup: bool)

  const NO_EVENTS := Revents(false, false, false, false, false, false)

  /** What the kernel may report for a mask: errors and hang-ups always, input and urgent data for read interest, room
      for output for write interest. The half-close of the peer is never asked for. */
  predicate Reportable(mask: Interest, revents: Revents)
  {
    (revents.input || revents.pri ==> mask.read) && (revents.output ==> mask.write) && !revents.rdhup
  }

  class Channel {
    const fd: int
    var events: Interest
    var revents: Revents
    var statusInEpoll: Status
    var addedToLoop: bool

    constructor (fd: int)
      ensures this.fd == fd && events == NONE && statusInEpoll == New && revents == NO_EVENTS && !addedToLoop
    {
      this.fd := fd;
      events, revents, statusInEpoll, addedToLoop := NONE, NO_EVENTS, New, false;
    }

    predicate IsNoneEvent()
      reads this
    {
      events == NONE
    }

    predicate IsWriting()
      reads this
    {
      events.write
    }

    function View(): Slot
      reads this
    {
      Slot(statusInEpoll, events)
    }
  }

  /** A descriptor registered in the kernel: its mask, and the channel pointer kept with it. */
  datatype Registration = Registration(mask: Interest, channel: Channel)

  const INITIAL_EVENTS := 16

  class Poller {
    var channels: map<int, Channel>
    var kernel: map<int, Registration>
    var capacity: nat
    ghost var owned: set<Channel>      // all channels of this loop

    /** The channel c is where its status says, and the kernel, if it has it, watches for mask. */
    ghost predicate Mirrors(c: Channel, mask: Interest)
      reads this, c
    {
      && (c.statusInEpoll == New <==> c.fd !in channels)
      && (c.fd in channels ==> channels[c.fd] == c)
      && (c.statusInEpoll == Added <==> c.fd in kernel)
      && (c.fd in kernel ==> kernel[c.fd] == Registration(mask, c))
      && (c.statusInEpoll != Added ==> mask == NONE)
    }

    ghost predicate Consistent()
      reads this
    {
      && (forall c, d :: c in owned && d in owned && c.fd == d.fd ==> c == d)
      && (forall fd :: fd in channels ==> channels[fd] in owned && channels[fd].fd == fd)
      && (forall fd :: fd in kernel ==> kernel[fd].channel in owned && kernel[fd].channel.fd == fd)
      && capacity >= INITIAL_EVENTS
    }

    /** The kernel's interest set is that of the channels. */
    ghost predicate Valid()
      reads this, owned
    {
      Consistent() && forall c :: c in owned ==> Mirrors(c, c.events)
    }

    constructor ()
      ensures Valid() && owned == {} && kernel == map[] && channels == map[] && capacity == 16
    {
      channels, kernel, capacity, owned := map[], map[], INITIAL_EVENTS, {};
    }

    /** A new channel on a descriptor no other channel of this loop has. */
    method Adopt(c: Channel)
      requires Valid() && c !in owned && c.View() == Slot(New, NONE) && forall d :: d in owned ==> d.fd != c.fd
      modifies this`owned
      ensures Valid() && owned == old(owned) + {c}
    {
      owned := owned + {c};
    }

    /** epoll_ctl: refuses to add what is there, and to change or delete what is not. */
    method EpollCtl(op: Ctl, c: Channel) returns (ok: bool)
      modifies this`kernel
      ensures ok <==> (op == CtlAdd <==> c.fd !in old(kernel))
      ensures kernel == if !ok then old(kernel)
                        else if op == CtlDel then old(kernel) - {c.fd}
                        else old(kernel)[c.fd := Registration(c.events, c)]
    {
      ok := (op == CtlAdd) == (c.fd !in kernel);
      if ok {
        kernel := if op == CtlDel then kernel - {c.fd} else kernel[c.fd := Registration(c.events, c)];
      }
    }

    /** Called with the interest of c already changed; mask is what the kernel still has. No assertion fails, and the
        kernel refuses nothing. */
    method UpdateChannel(c: Channel, ghost mask: Interest)
      requires Consistent() && c in owned && Mirrors(c, mask)
      requires forall d :: d in owned && d != c ==> Mirrors(d, d.events)
      modifies this`channels, this`kernel, c`statusInEpoll
      ensures Valid() && c.View() == Update(old(c.View()))
      ensures c.statusInEpoll == (if old(c.statusInEpoll) == Added && c.events == NONE then Deleted else Added)
      ensures c.events == old(c.events)
      ensures channels == old(channels)[c.fd := c]
      ensures kernel == if c.statusInEpoll == Added then old(kernel)[c.fd := Registration(c.events, c)]
                        else old(kernel) - {c.fd}
    {
      if c.statusInEpoll == New || c.statusInEpoll == Deleted {
        Enter(c);
      } else {
        Reenter(c);
      }
    }

    /** updateChannel for a channel that is not in the kernel. */
    method Enter(c: Channel)
      requires Consistent() && c in owned && c.statusInEpoll != Added && Mirrors(c, NONE)
      requires forall d :: d in owned && d != c ==> Mirrors(d, d.events)
      modifies this`channels, this`kernel, c`statusInEpoll
      ensures Valid() && c.statusInEpoll == Added
      ensures channels == old(channels)[c.fd := c] && kernel == old(kernel)[c.fd := Registration(c.events, c)]
    {
      if c.statusInEpoll == New {
        assert c.fd !in channels;
        channels := channels[c.fd := c];
      } else {
        assert c.fd in channels && channels[c.fd] == c;
      }
      c.statusInEpoll := Added;
      var ok := EpollCtl(CtlAdd, c);
      assert ok;
    }

    /** updateChannel for a channel that is in the kernel. */
    method Reenter(c: Channel)
      requires Consistent() && c in owned && c.statusInEpoll == Added && c.fd in kernel && Mirrors(c, kernel[c.fd].mask)
      requires forall d :: d in owned && d != c ==> Mirrors(d, d.events)
      modifies this`kernel, c`statusInEpoll
      ensures Valid() && c.statusInEpoll == if c.events == NONE then Deleted else Added
      ensures kernel == if c.events == NONE then old(kernel) - {c.fd}
                        else old(kernel)[c.fd := Registration(c.events, c)]
    {
      var ok;
      assert c.fd in channels && channels[c.fd] == c;
      if c.IsNoneEvent() {
        ok := EpollCtl(CtlDel, c);
        c.statusInEpoll := Deleted;
      } else {
        ok := EpollCtl(CtlMod, c);
      }
      assert ok;
    }

    /** enableReading, enableWriting, disableWriting and disableAll of a channel. */
    method Change(c: Channel, op: Operation)
      requires Valid() && c in owned
      modifies this`channels, this`kernel, c
      ensures Valid() && c.View() == Apply(old(c.View()), op)
      ensures channels == old(channels)[c.fd := c]
      ensures kernel == if c.statusInEpoll == Added then old(kernel)[c.fd := Registration(c.events, c)]
                        else old(kernel) - {c.fd}
      ensures c.events.read == (op == EnableReading || (old(c.events.read) && op != DisableAll))
      ensures c.events.write == (op == EnableWriting || (old(c.events.write) && op == EnableReading))
      ensures c.statusInEpoll == if old(c.statusInEpoll) == Added && c.events == NONE then Deleted else Added
      ensures c.addedToLoop && c.revents == old(c.revents)
    {
      ghost var mask := c.events;
      c.events := Events(c.events, op);
      c.addedToLoop := true;
      UpdateChannel(c, mask);
    }

    /** Channel::remove and removeChannel. */
    method Remove(c: Channel)
      requires Valid() && c in owned && c.IsNoneEvent()
      modifies this`channels, this`kernel, c
      ensures Valid() && c.View() == Slot(New, NONE) && !c.addedToLoop
      ensures channels == old(channels) - {c.fd} && kernel == old(kernel) - {c.fd}
    {
      c.addedToLoop := false;
      channels := channels - {c.fd};
      if c.statusInEpoll == Added {
        var ok := EpollCtl(CtlDel, c);
        assert ok;
      }
      c.statusInEpoll := New;
    }

    /** poll with the events the kernel reported, at most capacity of them and only for registered descriptors. Every
        channel handed out is registered at this moment and carries its event. */
    method Poll(ready: seq<(int, Revents)>) returns (active: seq<Channel>)
      requires Valid() && |ready| <= capacity
      requires forall e :: e in ready ==> e.0 in kernel && Reportable(kernel[e.0].mask, e.1)
      requires forall i, j :: 0 <= i < j < |ready| ==> ready[i].0 != ready[j].0
      modifies this`capacity, owned
      ensures Valid() && |active| == |ready|
      ensures forall i :: 0 <= i < |ready| ==>
                && active[i] in owned && active[i].fd == ready[i].0 && active[i].revents == ready[i].1
                && active[i].statusInEpoll == Added && Reportable(active[i].events, active[i].revents)
      ensures forall c :: c in owned ==> c.View() == old(c.View())
      ensures capacity == if ready != [] && |ready| == old(capacity) then 2 * old(capacity) else old(capacity)
    {
      active := [];
      var i := 0;
      while i < |ready|
        invariant 0 <= i == |active| <= |ready| && capacity == old(capacity) && Consistent()
        invariant kernel == old(kernel) && owned == old(owned) && channels == old(channels)
        invariant forall j :: 0 <= j < i ==> active[j] == kernel[ready[j].0].channel && active[j].revents == ready[j].1
        invariant forall c :: c in owned ==> c.View() == old(c.View())
      {
        var fd := ready[i].0;
        assert ready[i] in ready && fd in kernel;
        var channel := kernel[fd].channel;
        assert kernel[fd].channel in owned;
        channel.revents := ready[i].1;
        active := active + [channel];
        i := i + 1;
      }
      if ready != [] && |ready| == capacity {
        capacity := capacity * 2;
      }
      forall j | 0 <= j < |ready| ensures active[j].fd == ready[j].0 {
        assert ready[j] in ready;
      }
    }
  }
}
