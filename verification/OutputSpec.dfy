/** The sending half of a connection, as steps on values: what the kernel takes of each message, what waits in the
    output buffer, and when the half-close comes. The class of TcpConnection is proved against these steps. */
module OutputSpec {
  datatype ConnectionState = Connecting | Connected | Disconnecting | Disconnected

  /** written is what the socket has taken and queued what waits in the output buffer. accepted, writes and shutdowns
      are history: all messages taken, one after the other, the calls of write, and the half-closes. */
  datatype Output = Output(
    state: ConnectionState, written: string, queued: string, accepted: string, writes: nat, shutdowns: nat)

  /** took is how many bytes the kernel takes in the one write that is tried, nothing if the write fails. */
  datatype Action = Establish | Send(message: string, took: nat) | Writable(took: nat) | Shutdown | Close

  const MADE := Output(Connecting, "", "", "", 0, 0)

  predicate Up(s: Output)
  {
    s.state == Connected || s.state == Disconnecting
  }

  /** The connection is up and nothing is queued: only then is a message accepted. */
  predicate Takes(s: Output)
  {
    s.state == Connected && s.queued == ""
  }

  predicate Enabled(s: Output, a: Action)
  {
    match a
    case Establish => s.state == Connecting
    case Send(message, took) => took <= |message|
    case Writable(took) => took <= |s.queued|
    case Shutdown => true
    case Close => Up(s)
  }

  function Step(s: Output, a: Action): Output
    requires Enabled(s, a)
  {
    match a
    case Establish => s.(state := Connected)
    case Send(message, took) =>
      if !Takes(s) then s
      else s.(written := s.written + message[..took], queued := message[took..],
              accepted := s.accepted + message, writes := s.writes + 1)
    case Writable(took) =>
      if !Up(s) || s.queued == "" then s
      else
        var rest := s.queued[took..];
        s.(written := s.written + s.queued[..took], queued := rest, writes := s.writes + 1,
           shutdowns := s.shutdowns + if rest == "" && s.state == Disconnecting then 1 else 0)
    case Shutdown =>
      if s.state != Connected then s
      else s.(state := Disconnecting, shutdowns := s.shutdowns + if s.queued == "" then 1 else 0)
    case Close => s.(state := Disconnected)
  }

  predicate Valid(s: Output, run: seq<Action>)
    decreases |run|
  {
    run == [] || (Enabled(s, run[0]) && Valid(Step(s, run[0]), run[1..]))
  }

  function Run(s: Output, run: seq<Action>): Output
    requires Valid(s, run)
    decreases |run|
  {
    if run == [] then s else Run(Step(s, run[0]), run[1..])
  }

  lemma {:induction false} RunAppend(s: Output, run: seq<Action>, a: Action)
    requires Valid(s, run) && Enabled(Run(s, run), a)
    ensures Valid(s, run + [a]) && Run(s, run + [a]) == Step(Run(s, run), a)
    decreases |run|
  {
    hide Step, Enabled;
    if run == [] {
      assert (run + [a])[1..] == [];
    } else {
      assert (run + [a])[1..] == run[1..] + [a] && (run + [a])[0] == run[0];
      RunAppend(Step(s, run[0]), run[1..], a);
    }
  }

  lemma {:induction false} RunConcat(s: Output, first: seq<Action>, second: seq<Action>)
    requires Valid(s, first) && Valid(Run(s, first), second)
    ensures Valid(s, first + second) && Run(s, first + second) == Run(Run(s, first), second)
    decreases |first|
  {
    hide Step, Enabled;
    if first == [] {
      assert first + second == second;
    } else {
      assert (first + second)[1..] == first[1..] + second && (first + second)[0] == first[0];
      RunConcat(Step(s, first[0]), first[1..], second);
    }
  }

  /** Written and queued bytes are the accepted messages, whole and in order; the half-close comes once, after a
      shutdown and after the last accepted byte. */
  predicate Inv(s: Output)
  {
    && s.written + s.queued == s.accepted
    && (s.state == Connecting ==> s.accepted == "")
    && (s.state == Connecting || s.state == Connected ==> s.shutdowns == 0)
    && (s.state == Disconnecting ==> s.shutdowns == if s.queued == "" then 1 else 0)
    && s.shutdowns <= 1
    && (s.shutdowns == 1 ==> s.queued == "")
  }

  lemma SplitAt(before: string, message: string, n: nat)
    requires n <= |message|
    ensures before + message[..n] + message[n..] == before + message
  {
    assert message == message[..n] + message[n..];
  }

  lemma StepKeepsInv(s: Output, a: Action)
    requires Inv(s) && Enabled(s, a)
    ensures Inv(Step(s, a))
  {
    if a.Send? { SplitAt(s.accepted, a.message, a.took); }
    if a.Writable? { SplitAt(s.written, s.queued, a.took); }
  }

  lemma {:induction false} RunKeepsInv(s: Output, run: seq<Action>)
    requires Inv(s) && Valid(s, run)
    ensures Inv(Run(s, run))
    decreases |run|
  {
    hide Inv, Step, Enabled;
    if run != [] {
      StepKeepsInv(s, run[0]);
      RunKeepsInv(Step(s, run[0]), run[1..]);
    }
  }

  /** In every run of a connection the socket has taken exactly the accepted messages up to what is still queued; it is
      shut down at most once, and only with nothing queued. */
  lemma StreamIntegrity(run: seq<Action>)
    requires Valid(MADE, run)
    ensures var t := Run(MADE, run);
            && t.written + t.queued == t.accepted && t.shutdowns <= 1
            && (t.shutdowns == 1 ==> t.written == t.accepted)
  {
    RunKeepsInv(MADE, run);
    var t := Run(MADE, run);
    if t.shutdowns == 1 { assert t.written + "" == t.written; }
  }

  /** Once shut down, nothing more is written, whatever happens. */
  lemma {:induction false} NothingAfterHalfClose(s: Output, run: seq<Action>)
    requires Inv(s) && s.shutdowns == 1 && Valid(s, run)
    ensures Run(s, run).written == s.written && Run(s, run).shutdowns == 1
    decreases |run|
  {
    if run != [] {
      StepKeepsInv(s, run[0]);
      assert Step(s, run[0]).written == s.written && Step(s, run[0]).shutdowns == 1;
      hide Inv, Step, Enabled;
      NothingAfterHalfClose(Step(s, run[0]), run[1..]);
    }
  }
}
