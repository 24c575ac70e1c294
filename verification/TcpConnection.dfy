/** A TCP connection in its loop: its state, its output buffer and its channel, over a socket that may write as few
    bytes as it likes. What its methods do to the output stream are steps of OutputSpec. */
module TcpConnection {
  import opened ByteBuffer
  import opened Epoll
  import opened OutputSpec

  /** The sending half of a socket: everything it has taken, how often it was asked to, and how often it was shut
      down. */
  class Socket {
    var written: string
    var writes: nat
    var shutdowns: nat

    constructor ()
      ensures written == "" && writes == shutdowns == 0
    {
      written, writes, shutdowns := "", 0, 0;
    }

    /** write(2): an error, or a prefix of what was offered. Never called after the half-close. */
    method Write(s: string) returns (n: int)
      requires shutdowns == 0
      modifies this`written, this`writes
      ensures -1 <= n <= |s| && writes == old(writes) + 1
      ensures written == if n < 0 then old(written) else old(written) + s[..n]
    {
      n, writes := *, writes + 1;
      if n < -1 || n > |s| { n := -1; }
      if n >= 0 { written := written + s[..n]; }
    }

    method ShutdownWrite()
      modifies this`shutdowns
      ensures shutdowns == old(shutdowns) + 1
    {
      shutdowns := shutdowns + 1;
    }
  }

  class Connection {
    var state: ConnectionState
    const socket: Socket
    const source: Source
    const poller: Poller
    const channel: Channel
    const input: Buffer
    const output: Buffer
    var callbacks: nat             // how often the message callback has been called
    ghost var consumed: string     // all bytes the callback has retrieved
    ghost var accepted: string     // all messages taken by sendInLoop, one after the other

    ghost function View(): Output
      reads this, output, output.data, socket
      requires output.Valid()
    {
      Output(state, socket.written, output.Contents(), accepted, socket.writes, socket.shutdowns)
    }

    /** Channel and kernel agree with the connection state. */
    ghost predicate Wired()
      reads this, poller, poller.owned, channel
    {
      && poller.Valid() && channel in poller.owned
      && (state == Connecting ==> channel.View() == Slot(New, NONE))
      && (state == Connected || state == Disconnecting ==> channel.statusInEpoll == Added && channel.events.read)
      && (state == Disconnected ==> channel.events == NONE && channel.statusInEpoll != Added)
    }

    /** The output stream is in order, and write interest is on exactly while something is queued. */
    ghost predicate Streams()
      reads this, channel, output, output.data, socket
    {
      && output.Valid() && Inv(View())
      && (Up(View()) ==> (channel.events.write <==> View().queued != ""))
    }

    ghost predicate Valid()
      reads this, poller, poller.owned, channel, output, output.data, socket, input
    {
      Wired() && Streams() && input.Valid() && input != output && input.data != output.data
    }

    /** The loop has registered the channel of the new connection with its poller already (Adopt). */
    constructor (poller: Poller, channel: Channel, source: Source)
      requires poller.Valid() && channel in poller.owned && channel.View() == Slot(New, NONE)
      ensures Valid() && View() == MADE && this.poller == poller && this.channel == channel && this.source == source
      ensures fresh(socket) && fresh(input) && fresh(output) && fresh(input.data) && fresh(output.data)
      ensures input.Contents() == "" && callbacks == 0
    {
      this.poller, this.channel, this.source := poller, channel, source;
      state, accepted, consumed, callbacks := Connecting, "", "", 0;
      socket := new Socket();
      input := new Buffer();
      output := new Buffer();
    }

    method ConnectionEstablished()
      requires Valid() && state == Connecting
      modifies this`state, poller`channels, poller`kernel, channel
      ensures Valid() && View() == Step(old(View()), Establish)
      ensures state == Connected && channel.events == Interest(true, false) && channel.fd in poller.kernel
    {
      state := Connected;
      poller.Change(channel, EnableReading);
    }

    /** send, from the loop thread. A message is accepted, as a whole, exactly when the connection is up and nothing
        is queued; otherwise it is dropped without a word. */
    method Send(message: string) returns (ghost took: nat)
      requires Valid()
      modifies this`accepted, socket`written, socket`writes, poller`channels, poller`kernel, channel
      modifies output, output.data
      ensures took <= |message|
      ensures Valid() && View() == Step(old(View()), OutputSpec.Send(message, took))
      ensures var taken := old(state) == Connected && old(output.Contents()) == "";
              && accepted == old(accepted) + (if taken then message else "")
              && socket.writes == old(socket.writes) + (if taken then 1 else 0)
              && socket.written == old(socket.written) + (if taken then message[..took] else "")
              && output.Contents() == (if taken then message[took..] else old(output.Contents()))
              && state == old(state) && socket.shutdowns == old(socket.shutdowns)
      ensures output.data == old(output.data) || fresh(output.data)
    {
      took := 0;
      assert accepted + "" == accepted && socket.written + "" == socket.written;
      if state == Connected {
        took := SendInLoop(message);
      }
    }

    method SendInLoop(message: string) returns (ghost took: nat)
      requires Valid() && state == Connected
      modifies this`accepted, socket`written, socket`writes, poller`channels, poller`kernel, channel
      modifies output, output.data
      ensures took <= |message|
      ensures Valid() && View() == Step(old(View()), OutputSpec.Send(message, took))
      ensures var taken := old(output.Contents()) == "";
              && accepted == old(accepted) + (if taken then message else "")
              && socket.writes == old(socket.writes) + (if taken then 1 else 0)
              && socket.written == old(socket.written) + (if taken then message[..took] else "")
              && output.Contents() == (if taken then message[took..] else old(output.Contents()))
              && state == old(state) && socket.shutdowns == old(socket.shutdowns)
      ensures output.data == old(output.data) || fresh(output.data)
    {
      hide Poller.Valid;
      took := 0;
      assert accepted + "" == accepted && socket.written + "" == socket.written;
      if !channel.IsWriting() && output.ReadableBytes() == 0 {
        ghost var before := View();
        var n := WriteSome(message);
        took := n;
        StepKeepsInv(before, OutputSpec.Send(message, n));
        accepted := accepted + message;
        if n < |message| {
          Enqueue(message[n..]);
        }
      }
    }

    /** One attempt at writing; an error counts as nothing written. */
    method WriteSome(message: string) returns (n: nat)
      requires socket.shutdowns == 0
      modifies socket`written, socket`writes
      ensures n <= |message| && socket.written == old(socket.written) + message[..n]
      ensures socket.writes == old(socket.writes) + 1
    {
      var result := socket.Write(message);
      if result >= 0 {
        n := result;
      } else {
        n := 0;
        assert socket.written + message[..0] == socket.written;
      }
    }

    /** Keeps what the socket did not take, and starts watching for writability. */
    method Enqueue(rest: string)
      requires Wired() && state == Connected && !channel.IsWriting() && rest != ""
      requires output.Valid() && output.Contents() == "" && input.Valid()
      requires input != output && input.data != output.data
      modifies poller`channels, poller`kernel, channel, output, output.data
      ensures Wired() && channel.IsWriting()
      ensures output.Valid() && output.Contents() == rest && input.Valid() && input.data != output.data
      ensures output.data == old(output.data) || fresh(output.data)
    {
      hide Poller.Valid;
      output.Append(rest);
      if !channel.IsWriting() {
        poller.Change(channel, EnableWriting);
      }
    }

    /** Offers all queued bytes to the socket once and drops those it takes. */
    method Drain() returns (n: nat)
      requires output.Valid() && socket.shutdowns == 0
      modifies socket`written, socket`writes, output`readerIndex, output`writerIndex
      ensures n <= |old(output.Contents())| && output.Valid() && output.Contents() == old(output.Contents())[n..]
      ensures socket.written == old(socket.written) + old(output.Contents())[..n]
      ensures socket.writes == old(socket.writes) + 1
    {
      n := WriteSome(output.ToString());
      if n > 0 {
        output.Retrieve(n);
      }
    }

    /** The socket can take more bytes: one write is tried exactly when the connection is up and something queued. */
    method HandleWrite() returns (ghost took: nat)
      requires Valid()
      modifies socket, poller`channels, poller`kernel, channel, output`readerIndex, output`writerIndex
      ensures took <= |old(View()).queued|
      ensures Valid() && View() == Step(old(View()), Writable(took))
      ensures var due := (old(state) == Connected || old(state) == Disconnecting) && old(output.Contents()) != "";
              && socket.writes == old(socket.writes) + (if due then 1 else 0)
              && socket.written == old(socket.written) + (if due then old(output.Contents())[..took] else "")
              && output.Contents() == (if due then old(output.Contents())[took..] else old(output.Contents()))
              && socket.shutdowns == old(socket.shutdowns)
                   + (if due && output.Contents() == "" && old(state) == Disconnecting then 1 else 0)
    {
      hide Poller.Valid;
      took := 0;
      assert socket.written + "" == socket.written;
      if channel.IsWriting() {
        ghost var before := View();
        var n := Drain();
        took := n;
        StepKeepsInv(before, Writable(n));
        if n > 0 && output.ReadableBytes() == 0 {
          StopWriting();
        }
      }
    }

    /** Everything is written: no more write interest, and the half-close if it was waiting for this. */
    method StopWriting()
      requires Wired() && (state == Connected || state == Disconnecting)
      modifies poller`channels, poller`kernel, channel, socket`shutdowns
      ensures Wired() && !channel.IsWriting()
      ensures socket.shutdowns == old(socket.shutdowns) + if state == Disconnecting then 1 else 0
    {
      hide Poller.Valid;
      poller.Change(channel, DisableWriting);
      if state == Disconnecting {
        ShutdownInLoop();
      }
    }

    method ShutdownInLoop()
      modifies socket`shutdowns
      ensures socket.shutdowns == old(socket.shutdowns) + if channel.IsWriting() then 0 else 1
    {
      if !channel.IsWriting() {
        socket.ShutdownWrite();
      }
    }

    /** shutdown, from the loop thread: the half-close happens now or after the last queued byte. */
    method Shutdown()
      requires Valid()
      modifies this`state, socket`shutdowns
      ensures Valid() && View() == Step(old(View()), OutputSpec.Shutdown)
      ensures state == if old(state) == Connected then Disconnecting else old(state)
      ensures socket.shutdowns == old(socket.shutdowns)
                + if old(state) == Connected && old(output.Contents()) == "" then 1 else 0
    {
      if state == Connected {
        state := Disconnecting;
        ShutdownInLoop();
      }
    }

    /** The source asserts the precondition. */
    method HandleClose()
      requires Valid() && Up(View())
      modifies this`state, poller`channels, poller`kernel, channel
      ensures Valid() && View() == Step(old(View()), Close) && channel.fd !in poller.kernel
      ensures state == Disconnected && channel.events == NONE
    {
      state := Disconnected;
      poller.Change(channel, DisableAll);
    }

    /** connectionDestroyed. asserted tells that the assertion in remove failed, which wants no interest left: that is
        so exactly for a half-closed connection. One that was never established stays connecting. */
    method ConnectionDestroyed() returns (asserted: bool)
      requires Valid()
      modifies this`state, poller`channels, poller`kernel, channel
      ensures asserted <==> old(state) == Disconnecting
      ensures !asserted ==>
                && Valid() && View() == (if old(state) == Connected then Step(old(View()), Close) else old(View()))
                && state == (if old(state) == Connected then Disconnected else old(state))
                && channel.statusInEpoll == New && channel.fd !in poller.channels && channel.fd !in poller.kernel
    {
      if state == Connected {
        state := Disconnected;
        poller.Change(channel, DisableAll);
      }
      asserted := !channel.IsNoneEvent();
      if !asserted {
        poller.Remove(channel);
      }
    }

    /** One thing a message callback may do. */
    method CallbackAction() returns (ghost steps: seq<OutputSpec.Action>)
      requires Valid()
      modifies this`accepted, this`state, this`consumed, socket, poller`channels, poller`kernel, channel
      modifies output, output.data, input`readerIndex, input`writerIndex
      ensures Valid() && OutputSpec.Valid(old(View()), steps) && View() == Run(old(View()), steps)
      ensures forall a :: a in steps ==> a.Send? || a.Shutdown?
      ensures state == old(state) || (old(state) == Connected && state == Disconnecting)
      ensures consumed + input.Contents() == old(consumed + input.Contents())
      ensures output.data == old(output.data) || fresh(output.data)
    {
      hide Poller.Valid, Inv, Step;
      ghost var before := View();
      steps := [];
      var what: int := *;
      if what == 0 {
        var message: string := *;
        ghost var took := Send(message);
        steps := [OutputSpec.Send(message, took)];
        OneStep(before, OutputSpec.Send(message, took));
        KeepsState(before, OutputSpec.Send(message, took));
      } else if what == 1 {
        Shutdown();
        steps := [OutputSpec.Shutdown];
        OneStep(before, OutputSpec.Shutdown);
        KeepsState(before, OutputSpec.Shutdown);
      } else {
        var len: int := *;
        if 0 <= len <= input.ReadableBytes() {
          ghost var there := input.Contents();
          ghost var front, taken := there[..len], consumed;
          SplitAt(taken, there, len);
          input.Retrieve(len);
          consumed := taken + front;
        }
      }
    }

    /** Any number of them. */
    method CallbackActions() returns (ghost steps: seq<OutputSpec.Action>)
      requires Valid()
      modifies this`accepted, this`state, this`consumed, socket, poller`channels, poller`kernel, channel
      modifies output, output.data, input`readerIndex, input`writerIndex
      ensures Valid() && OutputSpec.Valid(old(View()), steps) && View() == Run(old(View()), steps)
      ensures forall a :: a in steps ==> a.Send? || a.Shutdown?
      ensures state == old(state) || (old(state) == Connected && state == Disconnecting)
      ensures consumed + input.Contents() == old(consumed + input.Contents())
      ensures output.data == old(output.data) || fresh(output.data)
    {
      hide Poller.Valid, Connection.Wired, Inv, Step, Run, OutputSpec.Valid;
      var n: nat := *;
      ghost var start := View();
      steps := [];
      Nothing(start);
      while n > 0
        invariant Valid() && OutputSpec.Valid(start, steps) && View() == Run(start, steps)
        invariant forall a :: a in steps ==> a.Send? || a.Shutdown?
        invariant state == old(state) || (old(state) == Connected && state == Disconnecting)
        invariant consumed + input.Contents() == old(consumed + input.Contents())
        invariant output.data == old(output.data) || fresh(output.data)
      {
        ghost var more := CallbackAction();
        RunConcat(start, steps, more);
        steps := steps + more;
        n := n - 1;
      }
    }

    /** The user's message callback: takes any part of the input and may send and shut down as it likes. steps lists
        what it did. */
    method MessageCallback() returns (ghost steps: seq<OutputSpec.Action>)
      requires Valid()
      modifies this`accepted, this`state, this`consumed, this`callbacks, socket, poller`channels, poller`kernel, channel
      modifies output, output.data, input`readerIndex, input`writerIndex
      ensures Valid() && OutputSpec.Valid(old(View()), steps) && View() == Run(old(View()), steps)
      ensures forall a :: a in steps ==> a.Send? || a.Shutdown?
      ensures state == old(state) || (old(state) == Connected && state == Disconnecting)
      ensures callbacks == old(callbacks) + 1
      ensures consumed + input.Contents() == old(consumed + input.Contents())
      ensures output.data == old(output.data) || fresh(output.data)
    {
      callbacks := callbacks + 1;
      steps := CallbackActions();
    }

    static lemma Nothing(s: Output)
      ensures OutputSpec.Valid(s, []) && Run(s, []) == s
    {
    }

    static lemma KeepsState(s: Output, a: OutputSpec.Action)
      requires Enabled(s, a) && (a.Send? || a.Shutdown?)
      ensures Step(s, a).state == s.state || (s.state == Connected && Step(s, a).state == Disconnecting)
    {
    }

    /** The socket is readable; fails tells whether readv fails. At the end of the stream the connection closes, or the
        assertion of handleClose fails, as asserted tells. */
    method HandleRead(fails: bool) returns (asserted: bool, ghost steps: seq<OutputSpec.Action>)
      requires Valid() && state != Connecting
      modifies this`accepted, this`state, this`consumed, this`callbacks, socket, source
      modifies poller`channels, poller`kernel, channel
      modifies output, output.data, input, input.data
      ensures asserted <==> !fails && old(source.incoming) == "" && old(state) == Disconnected
      ensures !asserted ==> Valid() && OutputSpec.Valid(old(View()), steps) && View() == Run(old(View()), steps)
      ensures !asserted && !fails && old(source.incoming) == "" ==> steps == [Close] && state == Disconnected
      ensures !asserted && (fails || old(source.incoming) != "") ==>
                && (forall a :: a in steps ==> a.Send? || a.Shutdown?)
                && (state == old(state) || (old(state) == Connected && state == Disconnecting))
      ensures output.data == old(output.data) || fresh(output.data)
      ensures var arrived := !fails && old(source.incoming) != "";
              && callbacks == old(callbacks) + (if arrived then 1 else 0)
              && (arrived ==> |source.incoming| < |old(source.incoming)|)
      ensures input.Valid()
      ensures consumed + input.Contents() + source.incoming == old(consumed + input.Contents() + source.incoming)
    {
      hide Poller.Valid, Inv, Step;
      asserted, steps := false, [];
      ghost var taken := consumed;
      var n, errored := input.ReadFd(source, fails);
      Regroup(taken, old(input.Contents()), old(source.incoming), input.Contents(), source.incoming);
      if n > 0 {
        steps := MessageCallback();
      } else if n == 0 {
        asserted := state == Disconnected;
        if !asserted {
          ghost var before := View();
          HandleClose();
          steps := [Close];
          OneStep(before, Close);
          IsClosed(before);
        }
      }
    }

    static lemma Regroup(taken: string, a: string, b: string, c: string, d: string)
      requires a + b == c + d
      ensures taken + a + b == taken + c + d
    {
      assert taken + a + b == taken + (a + b);
      assert taken + c + d == taken + (c + d);
    }

    static lemma OneStep(s: Output, a: OutputSpec.Action)
      requires Enabled(s, a)
      ensures OutputSpec.Valid(s, [a]) && Run(s, [a]) == Step(s, a)
    {
      hide Step;
      assert [a][1..] == [];
    }

    static lemma IsClosed(s: Output)
      requires Enabled(s, Close)
      ensures Step(s, Close).state == Disconnected
    {
    }

    /** handleEventWithGuard: hang-up, error, read and write callbacks, in this order. The connection closes exactly on
        a hang-up without input or at the end of the stream; the assertion that it does not close twice fails exactly
        when both come in one dispatch. In particular input that is there is read before a hang-up that comes with it
        can close the connection. during is what the read callback did. */
    method HandleEvent(revents: Revents, fails: bool)
      returns (asserted: bool, ghost during: seq<OutputSpec.Action>, ghost took: nat)
      requires Valid() && Up(View())
      modifies this`accepted, this`state, this`consumed, this`callbacks, socket, source
      modifies poller`channels, poller`kernel, channel
      modifies output, output.data, input, input.data
      ensures asserted <==>
                && revents.hup && !revents.input && (revents.pri || revents.rdhup)
                && !fails && old(source.incoming) == ""
      ensures !asserted ==>
                && Valid()
                && (state == Disconnected <==>
                    || (revents.hup && !revents.input)
                    || ((revents.input || revents.pri || revents.rdhup) && !fails && old(source.incoming) == ""))
      ensures revents.input && (fails || old(source.incoming) != "") ==> !asserted && state != Disconnected
      ensures !asserted && (revents.input || revents.pri || revents.rdhup) && !fails && old(source.incoming) == "" ==>
                during == [Close]
      ensures fails || old(source.incoming) != "" ==> forall a :: a in during ==> a.Send? || a.Shutdown?
      ensures !(revents.input || revents.pri || revents.rdhup) ==> during == []
      ensures !asserted ==>
                var steps := (if revents.hup && !revents.input then [Close] else [])
                             + during + (if revents.output then [Writable(took)] else []);
                OutputSpec.Valid(old(View()), steps) && View() == Run(old(View()), steps)
      ensures var arrived := (revents.input || revents.pri || revents.rdhup) && !fails && old(source.incoming) != "";
              callbacks == old(callbacks) + if arrived then 1 else 0
      ensures input.Valid()
      ensures consumed + input.Contents() + source.incoming == old(consumed + input.Contents() + source.incoming)
    {
      hide Poller.Valid, Inv, Step, Connection.Wired, Run, OutputSpec.Valid;
      StartsWithNothing(View());
      ghost var start := View();
      ghost var steps := [];
      asserted, during, took := false, [], 0;
      if revents.hup && !revents.input {
        HandleClose();
        OneStep(start, Close);
        IsClosed(start);
        steps := [Close];
      }
      if revents.input || revents.pri || revents.rdhup {
        asserted, during := HandleRead(fails);
        if asserted { return; }
        RunConcat(start, steps, during);
        steps := steps + during;
      }
      assert steps == (if revents.hup && !revents.input then [Close] else []) + during;
      if revents.output {
        ghost var before := View();
        took := HandleWrite();
        RunAppend(start, steps, Writable(took));
        WritableKeepsState(before, took);
      }
      assert steps + [] == steps;
    }

    static lemma StartsWithNothing(s: Output)
      ensures OutputSpec.Valid(s, []) && Run(s, []) == s
    {
    }

    static lemma WritableKeepsState(s: Output, took: nat)
      requires Enabled(s, Writable(took))
      ensures Step(s, Writable(took)).state == s.state
    {
    }
  }

  /** A connection on a descriptor of its own, up and registered. */
  method NewConnection(fd: int, incoming: string) returns (connection: Connection)
    ensures connection.Valid() && connection.View() == OutputSpec.Step(MADE, OutputSpec.Establish)
    ensures connection.input.Contents() == "" && connection.source.incoming == incoming
    ensures fresh(connection) && fresh(connection.socket) && fresh(connection.source) && fresh(connection.poller)
    ensures fresh(connection.channel) && fresh(connection.poller.owned) && fresh(connection.input)
    ensures fresh(connection.input.data) && fresh(connection.output) && fresh(connection.output.data)
  {
    hide OutputSpec.Inv, Step, Connection.Wired, Poller.Valid, Connection.Streams;
    var poller := new Poller();
    var channel := new Channel(fd);
    poller.Adopt(channel);
    var source := new Source(incoming);
    connection := new Connection(poller, channel, source);
    connection.ConnectionEstablished();
  }

  /** The assertion of handleClose can fail on what the poller may report for a connection that is up: a hang-up with
      urgent data, without input, when the stream is found at its end. Nothing sent or received is needed for that. */
  method DoubleClose(fd: int) returns (asserted: bool)
    ensures asserted
  {
    var connection := NewConnection(fd, "");
    var revents := NO_EVENTS.(hup := true, pri := true);
    assert Reportable(connection.channel.events, revents);
    ghost var during, took;
    asserted, during, took := connection.HandleEvent(revents, false);
  }

  /** The assertion of remove fails for a connection destroyed after a shutdown and before it is closed. */
  method HalfClosedDestroyed(fd: int) returns (asserted: bool)
    ensures asserted
  {
    var connection := NewConnection(fd, "");
    connection.Shutdown();
    asserted := connection.ConnectionDestroyed();
  }
}
