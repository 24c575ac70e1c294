/** The HTTP server on one connection: what it answers, what becomes of an answer in the output stream, and what a
    client can read back. */
module HttpServer {
  import opened Wrappers
  import opened Text
  import opened Decimal
  import HttpSpec
  import HttpTheorems
  import opened HttpParser
  import R = HttpResponse
  import opened OutputSpec
  import opened Epoll
  import opened TcpConnection

  const BAD_REQUEST := "HTTP/1.1 400 Bad Request\r\n\r\n"

  /** getHeader gives the empty string for a field that is not there. */
  function GetHeader(r: HttpSpec.Request, field: string): string
  {
    if field in r.headers then r.headers[field] else ""
  }

  predicate WantsClose(r: HttpSpec.Request)
  {
    GetHeader(r, "Connection") == "close"
  }

  /** The user's callback fills in the answer as it likes; setClose is what it makes of the close flag, if anything. */
  method HttpCallback(request: HttpSpec.Request, response: R.HttpResponse, setClose: Option<bool>)
    requires R.Ordered(response.headers)
    modifies response
    ensures R.Ordered(response.headers)
    ensures response.closeConnection == if setClose.Some? then setClose.value else old(response.closeConnection)
  {
    var n: nat := *;
    while n > 0
      invariant R.Ordered(response.headers) && response.closeConnection == old(response.closeConnection)
    {
      var key: string, value: string := *, *;
      response.AddHeader(key, value);
      n := n - 1;
    }
    response.statusCode, response.statusMessage, response.body := *, *, *;
    if setClose.Some? { response.closeConnection := setClose.value; }
  }

  /** What a message comes to: at most one of a rejection and an answer. */
  datatype Reply = Silence | Rejection | Answer(response: R.Response)

  function Printed(reply: Reply): string
  {
    match reply
    case Silence => ""
    case Rejection => BAD_REQUEST
    case Answer(response) => R.PrintResponse(response)
  }

  predicate Closes(reply: Reply)
  {
    reply.Rejection? || (reply.Answer? && reply.response.close)
  }

  /** What a reply does to the output stream. */
  function Delivery(reply: Reply, took: nat): seq<OutputSpec.Action>
  {
    if reply == Silence then []
    else [Send(Printed(reply), took)] + if Closes(reply) then [OutputSpec.Shutdown] else []
  }

  /** Sends reply and shuts the connection down if it closes. */
  method Deliver(connection: Connection, reply: Reply) returns (ghost took: nat)
    requires connection.Valid()
    modifies connection`accepted, connection`state, connection.socket
    modifies connection.poller`channels, connection.poller`kernel
    modifies connection.channel, connection.output, connection.output.data
    ensures connection.Valid()
    ensures OutputSpec.Valid(old(connection.View()), Delivery(reply, took))
    ensures connection.View() == Run(old(connection.View()), Delivery(reply, took))
    ensures connection.output.data == old(connection.output.data) || fresh(connection.output.data)
  {
    hide Connection.Wired, Printed, Step;
    took := 0;
    ghost var before := connection.View();
    if reply != Silence {
      took := connection.Send(Printed(reply));
      Connection.OneStep(before, Send(Printed(reply), took));
      if Closes(reply) {
        connection.Shutdown();
        RunAppend(before, [Send(Printed(reply), took)], OutputSpec.Shutdown);
      }
    }
  }

  /** onRequest up to sending: the close flag comes from the request unless the callback sets it. */
  method OnRequest(request: HttpSpec.Request, setClose: Option<bool>) returns (response: R.Response)
    ensures R.Ordered(response.headers)
    ensures response.close <==>
              if setClose.Some? then setClose.value
              else "Connection" in request.headers && request.headers["Connection"] == "close"
  {
    var filled := new R.HttpResponse(WantsClose(request));
    HttpCallback(request, filled, setClose);
    response := filled.View();
  }

  /** What onMessage answers to the bytes of one message, before anything is sent. */
  method ReplyTo(http: HttpConnection, message: string, receiveTime: int, setClose: Option<bool>)
    returns (reply: Reply, served: Option<HttpSpec.Request>)
    requires http.Valid()
    modifies http, http.context, http.context.request, http.input, http.input.data
    ensures http.Valid() && (http.input.data == old(http.input.data) || fresh(http.input.data))
    ensures http.View() == HttpSpec.OnMessage(old(http.View()), message).session
    ensures HttpSpec.OnMessage(old(http.View()), message).served == if served.Some? then [served.value] else []
    ensures reply.Answer? <==> served.Some?
    ensures served.Some? ==>
              (reply.response.close <==>
                 if setClose.Some? then setClose.value
                 else "Connection" in served.value.headers && served.value.headers["Connection"] == "close")
    ensures reply.Rejection? <==>
              !http.aborted && !HttpSpec.Parse(old(http.context.View()), old(http.input.Contents()) + message).ok
  {
    hide HttpSpec.OnMessage, HttpSpec.Parse, HttpTheorems.SessionInvariant;
    var reply400: bool;
    reply400, served := http.OnMessage(message, receiveTime);
    reply := Silence;
    if reply400 {
      reply := Rejection;
    } else if served.Some? {
      var response := OnRequest(served.value, setClose);
      reply := Answer(response);
    }
  }

  /** onMessage for the bytes of one message; http holds the connection's context and shares its input buffer. The
      process ends, and nothing is answered, where the parser's assertion fails. */
  method OnMessage(
    connection: Connection, http: HttpConnection, message: string, receiveTime: int, setClose: Option<bool>)
    returns (reply: Reply, served: Option<HttpSpec.Request>, ghost took: nat)
    requires connection.Valid() && http.Valid()
    requires http.input == connection.input
    modifies connection`accepted, connection`state, connection.socket
    modifies connection.poller`channels, connection.poller`kernel
    modifies connection.channel, connection.output, connection.output.data
    modifies http, http.context, http.context.request, http.input, http.input.data
    ensures connection.Valid() && http.Valid()
    ensures http.View() == HttpSpec.OnMessage(old(http.View()), message).session
    ensures HttpSpec.OnMessage(old(http.View()), message).served == if served.Some? then [served.value] else []
    ensures reply.Answer? <==> served.Some?
    ensures served.Some? ==>
              (reply.response.close <==>
                 if setClose.Some? then setClose.value
                 else "Connection" in served.value.headers && served.value.headers["Connection"] == "close")
    ensures reply.Rejection? <==>
              !http.aborted && !HttpSpec.Parse(old(http.context.View()), old(http.input.Contents()) + message).ok
    ensures OutputSpec.Valid(old(connection.View()), Delivery(reply, took))
    ensures connection.View() == Run(old(connection.View()), Delivery(reply, took))
    ensures connection.output.data == old(connection.output.data) || fresh(connection.output.data)
    ensures http.input.data == old(http.input.data) || fresh(http.input.data)
  {
    hide Connection.Wired, Connection.Streams, Delivery, HttpSpec.OnMessage, HttpSpec.Parse, WantsClose;
    hide HttpTheorems.SessionInvariant, Run, OutputSpec.Valid;
    reply, served := ReplyTo(http, message, receiveTime, setClose);
    took := Deliver(connection, reply);
  }

  // ---- replies on the stream ----

  predicate Printable(reply: Reply)
  {
    reply.Answer? ==> R.Printable(reply.response)
  }

  /** What a client is to make of a reply. The rejection has no headers at all. */
  function Receipt(reply: Reply): R.Received
    requires reply != Silence
  {
    if reply.Rejection? then R.Received(400, "Bad Request", [], "", "") else R.Delivered(reply.response, "")
  }

  function ItemOf(reply: Reply): R.Item
    requires reply != Silence
  {
    R.Item(Printed(reply), Receipt(reply), Closes(reply))
  }

  lemma RejectionReads()
    ensures R.ReadResponse(BAD_REQUEST, true) == Some(R.Received(400, "Bad Request", [], "", ""))
  {
    hide R.ReadBlock, R.ReadResponse, ReadNat;
    ReadsFourHundred();
    NoCrlfInReason();
    R.StatusLineReads("400", 400, "Bad Request", "\r\n", true);
    assert BAD_REQUEST == "HTTP/1.1 " + "400" + " " + "Bad Request" + "\r\n" + "\r\n";
    R.EmptyBlock("");
    assert "\r\n" + "" == "\r\n";
  }

  lemma NoCrlfInReason()
    ensures CrlfFree("Bad Request") && '\r' !in "400" && ' ' !in "400"
  {
    assert '\r' !in "Bad Request";
  }

  lemma ReadsFourHundred()
    ensures ReadNat("400") == Some(400)
  {
    assert "400"[..2] == "40" && "40"[..1] == "4" && "4"[..0] == "";
    assert Read("", 10) == Some(0);
    assert Read("4", 10) == Some(4);
    assert Read("40", 10) == Some(40);
  }

  lemma ItemReads(reply: Reply)
    requires reply != Silence && Printable(reply)
    ensures R.Reads(ItemOf(reply))
  {
    hide R.ReadResponse, R.PrintResponse, R.Safe;
    if reply.Rejection? {
      RejectionReads();
    } else {
      var r := reply.response;
      if r.close {
        R.ClosingReadsBackExactlyWhen(r, true);
      } else {
        forall rest, ended
          ensures R.ReadResponse(R.PrintResponse(r) + rest, ended) == Some(R.Delivered(r, "").(rest := rest))
        {
          R.ReadsBackExactlyWhen(r, rest, ended);
        }
      }
    }
  }

  function ItemsOf(replies: seq<Reply>): seq<R.Item>
    requires Silence !in replies
  {
    if replies == [] then [] else [ItemOf(replies[0])] + ItemsOf(replies[1..])
  }

  // ---- what the client can read ----

  /** What happens on a connection: a reply is sent, of which the kernel takes took bytes at once, or something else
      than a sending happens. */
  datatype Event = Replied(reply: Reply, took: nat) | Elsewhere(action: OutputSpec.Action)

  predicate Proper(e: Event)
  {
    if e.Replied? then e.reply != Silence && Printable(e.reply) else !e.action.Send?
  }

  function ActionsOf(e: Event): seq<OutputSpec.Action>
  {
    if e.Replied? then Delivery(e.reply, e.took) else [e.action]
  }

  predicate CanHappen(s: Output, e: Event)
  {
    if e.Elsewhere? then Enabled(s, e.action) else e.reply == Silence || e.took <= |Printed(e.reply)|
  }

  function Effect(s: Output, e: Event): Output
    requires CanHappen(s, e)
  {
    if e.Elsewhere? then Step(s, e.action)
    else if e.reply == Silence then s
    else
      var s1 := Step(s, Send(Printed(e.reply), e.took));
      if Closes(e.reply) then Step(s1, OutputSpec.Shutdown) else s1
  }

  /** An event is a run of the output stream. */
  lemma EventRuns(s: Output, e: Event)
    ensures CanHappen(s, e) <==> OutputSpec.Valid(s, ActionsOf(e))
    ensures CanHappen(s, e) ==> Effect(s, e) == Run(s, ActionsOf(e))
  {
    hide Step, Printed;
    if e.Elsewhere? {
      assert [e.action][1..] == [];
    } else if e.reply != Silence {
      var send := Send(Printed(e.reply), e.took);
      assert [send][1..] == [] && [send] + [] == [send];
      if Closes(e.reply) {
        assert ActionsOf(e) == [send, OutputSpec.Shutdown];
        assert [send, OutputSpec.Shutdown][1..] == [OutputSpec.Shutdown] && [OutputSpec.Shutdown][1..] == [];
      } else {
        assert ActionsOf(e) == [send];
      }
    }
  }

  /** The replies sent, whatever becomes of them. */
  function Replies(events: seq<Event>): seq<Reply>
  {
    if events == [] then [] else (if events[0].Replied? then [events[0].reply] else []) + Replies(events[1..])
  }

  predicate Possible(s: Output, events: seq<Event>)
    decreases |events|
  {
    events == [] || (CanHappen(s, events[0]) && Possible(Effect(s, events[0]), events[1..]))
  }

  function After(s: Output, events: seq<Event>): Output
    requires Possible(s, events)
    decreases |events|
  {
    if events == [] then s else After(Effect(s, events[0]), events[1..])
  }

  lemma {:induction false} AfterConcat(s: Output, first: seq<Event>, second: seq<Event>)
    requires Possible(s, first) && Possible(After(s, first), second)
    ensures Possible(s, first + second) && After(s, first + second) == After(After(s, first), second)
    decreases |first|
  {
    hide CanHappen, Effect;
    if first == [] {
      assert first + second == second;
    } else {
      assert (first + second)[1..] == first[1..] + second && (first + second)[0] == first[0];
      AfterConcat(Effect(s, first[0]), first[1..], second);
    }
  }

  lemma EffectKeepsInv(s: Output, e: Event)
    requires OutputSpec.Inv(s) && CanHappen(s, e)
    ensures OutputSpec.Inv(Effect(s, e))
  {
    hide Step, OutputSpec.Inv, Printed;
    if e.Elsewhere? {
      StepKeepsInv(s, e.action);
    } else if e.reply != Silence {
      StepKeepsInv(s, Send(Printed(e.reply), e.took));
      var s1 := Step(s, Send(Printed(e.reply), e.took));
      if Closes(e.reply) { StepKeepsInv(s1, OutputSpec.Shutdown); }
    }
  }

  /** At every sending the connection is up and nothing is queued. */
  predicate AlwaysReady(s: Output, events: seq<Event>)
    requires Possible(s, events)
    decreases |events|
  {
    events == []
    || ((events[0].Replied? ==> Takes(s)) && AlwaysReady(Effect(s, events[0]), events[1..]))
  }

  /** The replies that meet with a connection that takes them. */
  function Taken(s: Output, events: seq<Event>): seq<Reply>
    requires Possible(s, events)
    decreases |events|
  {
    if events == [] then []
    else
      (if events[0].Replied? && Takes(s) then [events[0].reply] else []) + Taken(Effect(s, events[0]), events[1..])
  }

  /** On its way down, and shut down as soon as nothing is queued. */
  predicate GoingDown(s: Output)
  {
    && OutputSpec.Inv(s) && (s.state == Disconnecting || s.state == Disconnected)
    && (s.queued == "" ==> s.shutdowns == 1)
  }

  lemma StaysGoingDown(s: Output, a: OutputSpec.Action)
    requires GoingDown(s) && Enabled(s, a)
    ensures GoingDown(Step(s, a)) && !Takes(s) && Step(s, a).accepted == s.accepted
  {
    StepKeepsInv(s, a);
  }

  lemma {:induction false} NothingTakenGoingDown(s: Output, events: seq<Event>)
    requires GoingDown(s) && Possible(s, events)
    ensures Taken(s, events) == [] && GoingDown(After(s, events)) && After(s, events).accepted == s.accepted
    decreases |events|
  {
    hide Step, GoingDown, Takes, Printed, Enabled;
    if events != [] {
      var e := events[0];
      AlwaysEnabled(s);
      StaysGoingDown(s, OutputSpec.Shutdown);
      if e.Elsewhere? {
        StaysGoingDown(s, e.action);
      } else if e.reply != Silence {
        SendEnabled(s, Printed(e.reply), e.took);
        StaysGoingDown(s, Send(Printed(e.reply), e.took));
        var s1 := Step(s, Send(Printed(e.reply), e.took));
        AlwaysEnabled(s1);
        if Closes(e.reply) { StaysGoingDown(s1, OutputSpec.Shutdown); }
      }
      NothingTakenGoingDown(Effect(s, e), events[1..]);
    }
  }

  lemma AlwaysEnabled(s: Output)
    ensures Enabled(s, OutputSpec.Shutdown)
  {
  }

  lemma SendEnabled(s: Output, text: string, took: nat)
    requires took <= |text|
    ensures Enabled(s, Send(text, took))
  {
  }

  /** A closing reply that is taken sends the connection on its way down. */
  lemma ClosingGoesDown(s: Output, e: Event)
    requires OutputSpec.Inv(s) && e.Replied? && CanHappen(s, e) && Takes(s) && Closes(e.reply)
    ensures GoingDown(Effect(s, e))
  {
    hide Printed;
    EffectKeepsInv(s, e);
  }

  lemma EffectAccepts(s: Output, e: Event)
    requires CanHappen(s, e) && Proper(e)
    ensures Effect(s, e).accepted == s.accepted + if e.Replied? && Takes(s) then Printed(e.reply) else ""
  {
    hide Printed;
    assert s.accepted + "" == s.accepted;
  }

  /** In every run the accepted bytes are the replies sent while the connection took them, in order; only the last of
      them can be a closing one, and then the stream ends behind it as soon as all is written. */
  lemma {:induction false} TakenIs(s: Output, events: seq<Event>)
    requires OutputSpec.Inv(s) && Possible(s, events) && forall e :: e in events ==> Proper(e)
    ensures Silence !in Taken(s, events)
    ensures After(s, events).accepted == s.accepted + R.Texts(ItemsOf(Taken(s, events)))
    ensures |Taken(s, events)| <= |Replies(events)|
    ensures |Taken(s, events)| == |Replies(events)| <==> AlwaysReady(s, events)
    ensures AlwaysReady(s, events) ==> Taken(s, events) == Replies(events)
    ensures forall i :: i in ItemsOf(Taken(s, events)) ==> R.Reads(i)
    ensures R.LastMayClose(ItemsOf(Taken(s, events)))
    ensures R.CountsOnEnd(ItemsOf(Taken(s, events))) && After(s, events).queued == "" ==>
              After(s, events).shutdowns == 1
    decreases |events|
  {
    hide Effect, CanHappen, OutputSpec.Inv, Takes, R.Reads, Printed, ItemOf;
    if events != [] {
      var e := events[0];
      assert Proper(e);
      var t := Effect(s, e);
      EffectKeepsInv(s, e);
      EffectAccepts(s, e);
      TakenIs(t, events[1..]);
      var later := Taken(t, events[1..]);
      if e.Replied? && Takes(s) {
        ItemReads(e.reply);
        if Closes(e.reply) {
          ClosingGoesDown(s, e);
          NothingTakenGoingDown(t, events[1..]);
          DownIsShut(After(t, events[1..]));
        }
        OneMoreItem(e.reply, later, s.accepted);
      } else {
        assert Taken(s, events) == later;
        assert t.accepted == s.accepted;
      }
    }
  }

  lemma DownIsShut(s: Output)
    requires GoingDown(s)
    ensures s.queued == "" ==> s.shutdowns == 1
  {
  }

  lemma OneMoreItem(reply: Reply, later: seq<Reply>, accepted: string)
    requires reply != Silence && Silence !in later && R.LastMayClose(ItemsOf(later)) && (Closes(reply) ==> later == [])
    requires R.Reads(ItemOf(reply)) && forall i :: i in ItemsOf(later) ==> R.Reads(i)
    ensures Silence !in [reply] + later
    ensures var items := ItemsOf([reply] + later);
            && accepted + R.Texts(items) == accepted + Printed(reply) + R.Texts(ItemsOf(later))
            && R.LastMayClose(items) && (forall i :: i in items ==> R.Reads(i))
            && (R.CountsOnEnd(items) <==> if later == [] then Closes(reply) else R.CountsOnEnd(ItemsOf(later)))
  {
    hide Printed, Receipt, R.Reads, Closes;
    assert ([reply] + later)[1..] == later;
    var items := ItemsOf([reply] + later);
    assert items == [ItemOf(reply)] + ItemsOf(later) && items[1..] == ItemsOf(later);
    ItemCount(later);
    assert accepted + (Printed(reply) + R.Texts(ItemsOf(later))) == accepted + Printed(reply) + R.Texts(ItemsOf(later));
  }

  lemma {:induction false} ItemCount(replies: seq<Reply>)
    requires Silence !in replies
    ensures |ItemsOf(replies)| == |replies|
    ensures forall k :: 0 <= k < |replies| ==> ItemsOf(replies)[k] == ItemOf(replies[k])
  {
    hide ItemOf;
    if replies != [] { ItemCount(replies[1..]); }
  }

  /** In every run of a connection, under every partial write: the client finds one response for each reply that was
      sent in the bytes the socket has taken exactly when at each sending the connection was up with nothing queued, and
      nothing is queued now. It then reads these replies, and no others: a closing answer or a rejection included, which
      is the last and goes up to the end of the stream. */
  lemma AllRepliesArriveExactlyWhen(s: Output, events: seq<Event>, n: nat)
    requires OutputSpec.Inv(s) && s.accepted == "" && Possible(s, events) && forall e :: e in events ==> Proper(e)
    requires n >= |Replies(events)|
    ensures var t := After(s, events);
            R.ReadAll(t.written, t.shutdowns == 1, n).Some?
            <==> n == |Replies(events)| && AlwaysReady(s, events) && t.queued == ""
    ensures var t := After(s, events);
            n == |Replies(events)| && AlwaysReady(s, events) && t.queued == "" ==>
              && Silence !in Replies(events)
              && R.ReadAll(t.written, t.shutdowns == 1, n) == Some(R.Receipts(ItemsOf(Replies(events))))
              && R.LastMayClose(ItemsOf(Replies(events)))
  {
    hide R.Texts, R.ReadAll, R.Receipts, R.Reads, CanHappen, Effect, Taken, AlwaysReady, Replies;
    hide R.LastMayClose, R.CountsOnEnd;
    TakenIs(s, events);
    AfterKeepsInv(s, events);
    var t, taken := After(s, events), Taken(s, events);
    var items := ItemsOf(taken);
    ItemCount(taken);
    assert "" + R.Texts(items) == R.Texts(items);
    R.CutStream(items, t.written, t.queued, t.shutdowns == 1, n);
  }

  lemma {:induction false} AfterKeepsInv(s: Output, events: seq<Event>)
    requires OutputSpec.Inv(s) && Possible(s, events)
    ensures OutputSpec.Inv(After(s, events))
    decreases |events|
  {
    hide CanHappen, Effect, OutputSpec.Inv;
    if events != [] {
      EffectKeepsInv(s, events[0]);
      AfterKeepsInv(Effect(s, events[0]), events[1..]);
    }
  }

  /** A connection that is up, with nothing sent yet. */
  const ESTABLISHED := Output(Connected, "", "", "", 0, 0)

  /** Up, with written out and queued waiting. */
  function Sending(written: string, queued: string, writes: nat): Output
  {
    Output(Connected, written, queued, written + queued, writes, 0)
  }

  lemma FirstHalf(r: R.Response, took: nat)
    requires took < |R.PrintResponse(r)| && !r.close
    ensures var p := R.PrintResponse(r);
            && CanHappen(ESTABLISHED, Replied(Answer(r), took)) && Takes(ESTABLISHED)
            && Effect(ESTABLISHED, Replied(Answer(r), took)) == Sending(p[..took], p[took..], 1)
            && CanHappen(Sending(p[..took], p[took..], 1), Elsewhere(Writable(|p| - took)))
            && Effect(Sending(p[..took], p[took..], 1), Elsewhere(Writable(|p| - took))) == Sending(p, "", 2)
  {
    hide R.PrintResponse;
    var p := R.PrintResponse(r);
    SplitAt("", p, took);
    assert "" + p[..took] == p[..took] && "" + p == p && p + "" == p;
    assert p[took..][..|p| - took] == p[took..] && p[took..][|p| - took..] == "";
  }

  lemma LastEvent(s: Output, e: Event)
    requires CanHappen(s, e)
    ensures Possible(s, [e]) && After(s, [e]) == Effect(s, e)
    ensures AlwaysReady(s, [e]) <==> (e.Replied? ==> Takes(s))
  {
    hide CanHappen, Effect, Takes;
    assert [e][1..] == [];
  }

  lemma ThreeEvents(s: Output, a: Event, b: Event, c: Event)
    requires CanHappen(s, a) && CanHappen(Effect(s, a), b) && CanHappen(Effect(Effect(s, a), b), c)
    ensures Possible(s, [a, b, c]) && After(s, [a, b, c]) == Effect(Effect(Effect(s, a), b), c)
    ensures AlwaysReady(s, [a, b, c]) <==>
              && (a.Replied? ==> Takes(s)) && (b.Replied? ==> Takes(Effect(s, a)))
              && (c.Replied? ==> Takes(Effect(Effect(s, a), b)))
    ensures Replies([a, b, c]) ==
              (if a.Replied? then [a.reply] else []) + (if b.Replied? then [b.reply] else [])
              + (if c.Replied? then [c.reply] else [])
  {
    hide CanHappen, Effect, Takes;
    assert [a, b, c][1..] == [b, c] && [b, c][1..] == [c] && [c][1..] == [];
    LastEvent(Effect(Effect(s, a), b), c);
    assert Replies([c]) == if c.Replied? then [c.reply] else [];
    assert Possible(Effect(s, a), [b, c]);
  }

  /** The kernel takes part of the first answer, and the second is sent before the rest is out: the second is lost for
      good, with everything written and the connection still up. Sent after the rest is out, both arrive. */
  lemma PartialWriteLosesAnswer(r1: R.Response, r2: R.Response, took: nat)
    requires R.Printable(r1) && R.Printable(r2) && !r1.close && !r2.close && took < |R.PrintResponse(r1)|
    ensures var rest := Elsewhere(Writable(|R.PrintResponse(r1)| - took));
            var all := |R.PrintResponse(r2)|;
            var early := [Replied(Answer(r1), took), Replied(Answer(r2), 0), rest];
            var late := [Replied(Answer(r1), took), rest, Replied(Answer(r2), all)];
            && Possible(ESTABLISHED, early) && Possible(ESTABLISHED, late)
            && After(ESTABLISHED, early).queued == After(ESTABLISHED, late).queued == ""
            && R.ReadAll(After(ESTABLISHED, early).written, false, 2) == None
            && R.ReadAll(After(ESTABLISHED, late).written, false, 2) == Some([R.Delivered(r1, ""), R.Delivered(r2, "")])
  {
    EarlyIsLost(r1, r2, took);
    LateArrives(r1, r2, took);
  }

  lemma EarlyIsLost(r1: R.Response, r2: R.Response, took: nat)
    requires R.Printable(r1) && R.Printable(r2) && !r1.close && !r2.close && took < |R.PrintResponse(r1)|
    ensures var rest := Elsewhere(Writable(|R.PrintResponse(r1)| - took));
            var early := [Replied(Answer(r1), took), Replied(Answer(r2), 0), rest];
            && Possible(ESTABLISHED, early) && After(ESTABLISHED, early).queued == ""
            && R.ReadAll(After(ESTABLISHED, early).written, false, 2) == None
  {
    hide R.PrintResponse, R.Printable, R.ReadAll;
    var p := R.PrintResponse(r1);
    var rest := Elsewhere(Writable(|p| - took));
    var e1, e2 := Replied(Answer(r1), took), Replied(Answer(r2), 0);
    FirstHalf(r1, took);
    var s := Sending(p[..took], p[took..], 1);
    assert CanHappen(s, e2) && Effect(s, e2) == s && !Takes(s);
    assert OutputSpec.Inv(ESTABLISHED) && Proper(e1) && Proper(e2) && Proper(rest);
    hide CanHappen, Effect, Takes, Proper, OutputSpec.Inv;
    ThreeEvents(ESTABLISHED, e1, e2, rest);
    AllRepliesArriveExactlyWhen(ESTABLISHED, [e1, e2, rest], 2);
  }

  lemma LateArrives(r1: R.Response, r2: R.Response, took: nat)
    requires R.Printable(r1) && R.Printable(r2) && !r1.close && !r2.close && took < |R.PrintResponse(r1)|
    ensures var rest := Elsewhere(Writable(|R.PrintResponse(r1)| - took));
            var late := [Replied(Answer(r1), took), rest, Replied(Answer(r2), |R.PrintResponse(r2)|)];
            && Possible(ESTABLISHED, late) && After(ESTABLISHED, late).queued == ""
            && R.ReadAll(After(ESTABLISHED, late).written, false, 2) == Some([R.Delivered(r1, ""), R.Delivered(r2, "")])
  {
    hide R.PrintResponse, R.Printable, R.ReadAll, R.Delivered;
    var p, q := R.PrintResponse(r1), R.PrintResponse(r2);
    var rest := Elsewhere(Writable(|p| - took));
    var e1, e3 := Replied(Answer(r1), took), Replied(Answer(r2), |q|);
    FirstHalf(r1, took);
    var s := Sending(p, "", 2);
    assert CanHappen(s, e3) && Takes(s) && Effect(s, e3).queued == "" && Effect(s, e3).shutdowns == 0;
    assert OutputSpec.Inv(ESTABLISHED) && Proper(e1) && Proper(e3) && Proper(rest);
    hide CanHappen, Effect, Takes, Proper, OutputSpec.Inv;
    ThreeEvents(ESTABLISHED, e1, rest, e3);
    AllRepliesArriveExactlyWhen(ESTABLISHED, [e1, rest, e3], 2);
    TwoReceipts(r1, r2);
    assert [Answer(r1)] + [] + [Answer(r2)] == [Answer(r1), Answer(r2)];
  }

  lemma TwoReceipts(r1: R.Response, r2: R.Response)
    ensures R.Receipts(ItemsOf([Answer(r1), Answer(r2)])) == [R.Delivered(r1, ""), R.Delivered(r2, "")]
  {
    hide R.Delivered, Printed;
    var a, b := Answer(r1), Answer(r2);
    assert [a, b][1..] == [b] && [b][1..] == [];
    assert ItemsOf([b]) == [ItemOf(b)] && [ItemOf(b)][1..] == [];
    assert ItemsOf([a, b]) == [ItemOf(a), ItemOf(b)] && [ItemOf(a), ItemOf(b)][1..] == [ItemOf(b)];
    assert R.Receipts([ItemOf(b)]) == [Receipt(b)];
  }

  // ---- from the messages that arrive to the replies that are read ----

  /** A message arrives, for which the callback would answer response, and of whatever is sent the kernel takes took
      bytes at once; or something else than a sending happens on the connection. */
  datatype Happening =
    | Arrives(message: string, response: R.Response, took: nat)
    | Meanwhile(action: OutputSpec.Action)

  function ReplyOf(session: HttpSpec.Session, message: string, response: R.Response): Reply
  {
    var r := HttpSpec.OnMessage(session, message);
    if r.served != [] then Answer(response)
    else if r.session.Serving? && !HttpSpec.Parse(session.ctx, session.buffer + message).ok then Rejection
    else Silence
  }

  function EventOf(session: HttpSpec.Session, h: Happening): seq<Event>
  {
    if h.Meanwhile? then [Elsewhere(h.action)]
    else
      var reply := ReplyOf(session, h.message, h.response);
      if reply == Silence then [] else [Replied(reply, h.took)]
  }

  function Next(session: HttpSpec.Session, h: Happening): HttpSpec.Session
  {
    if h.Meanwhile? then session else HttpSpec.OnMessage(session, h.message).session
  }

  /** What the happenings do to the output stream. */
  function EventsOf(session: HttpSpec.Session, hs: seq<Happening>): seq<Event>
    decreases |hs|
  {
    if hs == [] then [] else EventOf(session, hs[0]) + EventsOf(Next(session, hs[0]), hs[1..])
  }

  function SessionAfter(session: HttpSpec.Session, hs: seq<Happening>): HttpSpec.Session
    decreases |hs|
  {
    if hs == [] then session else SessionAfter(Next(session, hs[0]), hs[1..])
  }

  function Messages(hs: seq<Happening>): seq<string>
  {
    if hs == [] then [] else (if hs[0].Arrives? then [hs[0].message] else []) + Messages(hs[1..])
  }

  type Exchange = (HttpSpec.Request, R.Response)

  /** The requests handed to the callback, each with its answer. */
  function Exchanges(session: HttpSpec.Session, hs: seq<Happening>): seq<Exchange>
    decreases |hs|
  {
    if hs == [] then []
    else
      var served := if hs[0].Arrives? then HttpSpec.OnMessage(session, hs[0].message).served else [];
      (if served != [] then [(served[0], hs[0].response)] else []) + Exchanges(Next(session, hs[0]), hs[1..])
  }

  function RequestsOf(xs: seq<Exchange>): seq<HttpSpec.Request>
  {
    if xs == [] then [] else [xs[0].0] + RequestsOf(xs[1..])
  }

  function AnswersOf(xs: seq<Exchange>): seq<Reply>
  {
    if xs == [] then [] else [Answer(xs[0].1)] + AnswersOf(xs[1..])
  }

  function Rejections(replies: seq<Reply>): nat
  {
    if replies == [] then 0 else (if replies[0].Rejection? then 1 else 0) + Rejections(replies[1..])
  }

  function Answered(replies: seq<Reply>): seq<Reply>
  {
    if replies == [] then [] else (if replies[0].Answer? then [replies[0]] else []) + Answered(replies[1..])
  }

  const FRESH_SESSION := HttpSpec.Serving(HttpSpec.FRESH_CONTEXT, "")

  lemma OneMoreMessage(front: seq<string>, m: string)
    ensures var before, r := HttpSpec.Serve(front), HttpSpec.OnMessage(HttpSpec.Serve(front).session, m);
            HttpSpec.Serve(front + [m]) == HttpSpec.Reply(r.session, before.served + r.served)
  {
    hide HttpSpec.OnMessage;
    assert (front + [m])[..|front|] == front;
  }

  /** The first happening in front of the others. */
  lemma HappeningFront(session: HttpSpec.Session, hs: seq<Happening>)
    requires hs != []
    ensures SessionAfter(session, hs) == SessionAfter(Next(session, hs[0]), hs[1..])
    ensures Messages(hs) == (if hs[0].Arrives? then [hs[0].message] else []) + Messages(hs[1..])
    ensures hs[0].Meanwhile? ==>
              Next(session, hs[0]) == session && Exchanges(session, hs) == Exchanges(session, hs[1..])
    ensures hs[0].Arrives? ==> Next(session, hs[0]) == HttpSpec.OnMessage(session, hs[0].message).session
  {
    hide HttpSpec.OnMessage;
    if hs[0].Meanwhile? { assert Exchanges(session, hs) == [] + Exchanges(session, hs[1..]); }
  }

  lemma Regroup(a: seq<HttpSpec.Request>, b: seq<HttpSpec.Request>, c: seq<HttpSpec.Request>)
    ensures a + b + c == a + (b + c)
  {
  }

  /** The happenings serve what the session of their messages serves. */
  lemma {:induction false} HappeningsServe(front: seq<string>, hs: seq<Happening>)
    ensures var session, all := HttpSpec.Serve(front).session, HttpSpec.Serve(front + Messages(hs));
            && SessionAfter(session, hs) == all.session
            && all.served == HttpSpec.Serve(front).served + RequestsOf(Exchanges(session, hs))
    decreases |hs|
  {
    hide HttpSpec.OnMessage, HttpSpec.Serve;
    var session := HttpSpec.Serve(front).session;
    if hs == [] {
      assert front + [] == front;
      assert HttpSpec.Serve(front).served + [] == HttpSpec.Serve(front).served;
    } else {
      HappeningFront(session, hs);
      if hs[0].Meanwhile? {
        hide Exchanges, RequestsOf, Messages, SessionAfter, Next;
        HappeningsServe(front, hs[1..]);
        assert [] + Messages(hs[1..]) == Messages(hs[1..]);
      } else {
        OneMoreExchange(session, hs);
        hide Exchanges, RequestsOf, Messages, SessionAfter, Next;
        OneMoreMessage(front, hs[0].message);
        HappeningsServe(front + [hs[0].message], hs[1..]);
        var m, later := hs[0].message, Messages(hs[1..]);
        assert front + ([m] + later) == front + [m] + later;
        Regroup(HttpSpec.Serve(front).served, HttpSpec.OnMessage(session, m).served,
                RequestsOf(Exchanges(Next(session, hs[0]), hs[1..])));
      }
    }
  }

  lemma AtMostOne(session: HttpSpec.Session, message: string)
    ensures |HttpSpec.OnMessage(session, message).served| <= 1
  {
    hide HttpSpec.Parse;
  }

  /** The first happening in front of the others: requests, replies and exchanges. */
  lemma OneMoreExchange(session: HttpSpec.Session, hs: seq<Happening>)
    requires hs != [] && hs[0].Arrives?
    ensures var r := HttpSpec.OnMessage(session, hs[0].message);
            var later := Exchanges(r.session, hs[1..]);
            && RequestsOf(Exchanges(session, hs)) == r.served + RequestsOf(later)
            && Exchanges(session, hs) == (if r.served == [] then [] else [(r.served[0], hs[0].response)]) + later
            && AnswersOf(Exchanges(session, hs)) ==
                 (if r.served == [] then [] else [Answer(hs[0].response)]) + AnswersOf(later)
  {
    AtMostOne(session, hs[0].message);
    hide HttpSpec.OnMessage;
    var r := HttpSpec.OnMessage(session, hs[0].message);
    var later := Exchanges(r.session, hs[1..]);
    if r.served != [] {
      var x := (r.served[0], hs[0].response);
      assert Exchanges(session, hs) == [x] + later && ([x] + later)[1..] == later;
      assert r.served == [x.0];
    } else {
      assert Exchanges(session, hs) == later;
    }
  }

  /** The first event in front of the others. */
  lemma OneMoreEvent(session: HttpSpec.Session, hs: seq<Happening>)
    requires hs != []
    ensures var replies := Replies(EventsOf(Next(session, hs[0]), hs[1..]));
            Replies(EventsOf(session, hs)) ==
              if hs[0].Meanwhile? || ReplyOf(session, hs[0].message, hs[0].response) == Silence then replies
              else [ReplyOf(session, hs[0].message, hs[0].response)] + replies
  {
    hide ReplyOf, Next;
    var first, later := EventOf(session, hs[0]), EventsOf(Next(session, hs[0]), hs[1..]);
    if first == [] {
      assert first + later == later;
    } else {
      assert (first + later)[1..] == later && (first + later)[0] == first[0];
    }
  }

  lemma FrontReply(reply: Reply, replies: seq<Reply>)
    requires reply != Silence
    ensures Answered([reply] + replies) == (if reply.Answer? then [reply] else []) + Answered(replies)
    ensures Rejections([reply] + replies) == (if reply.Rejection? then 1 else 0) + Rejections(replies)
  {
    assert ([reply] + replies)[1..] == replies;
  }

  /** The replies are the answers, in order, and rejections among them. */
  lemma {:induction false} HappeningsReply(session: HttpSpec.Session, hs: seq<Happening>)
    ensures var replies, xs := Replies(EventsOf(session, hs)), Exchanges(session, hs);
            && Silence !in replies && Answered(replies) == AnswersOf(xs)
            && |replies| == |xs| + Rejections(replies) && |RequestsOf(xs)| == |xs|
    decreases |hs|
  {
    if hs != [] {
      var h, next := hs[0], Next(session, hs[0]);
      HappeningsReply(next, hs[1..]);
      OneMoreEvent(session, hs);
      if h.Meanwhile? {
        assert Exchanges(session, hs) == Exchanges(next, hs[1..]);
      } else {
        OneMoreExchange(session, hs);
        AtMostOne(session, h.message);
        var reply := ReplyOf(session, h.message, h.response);
        AnswersWhenServed(session, h);
        hide HttpSpec.OnMessage, ReplyOf, Replies, Answered, Rejections, AnswersOf, RequestsOf, Exchanges, EventsOf;
        if reply != Silence { FrontReply(reply, Replies(EventsOf(next, hs[1..]))); }
      }
    }
  }

  lemma AnswersWhenServed(session: HttpSpec.Session, h: Happening)
    requires h.Arrives?
    ensures var reply := ReplyOf(session, h.message, h.response);
            if HttpSpec.OnMessage(session, h.message).served != [] then reply == Answer(h.response) else !reply.Answer?
  {
    hide HttpSpec.OnMessage;
  }

  /** Where only the last reply closes, a rejection can only be the last. */
  lemma {:induction false} RejectionIsLast(replies: seq<Reply>)
    requires Silence !in replies && R.LastMayClose(ItemsOf(replies))
    ensures replies == Answered(replies) + if Rejections(replies) > 0 then [Rejection] else []
    decreases |replies|
  {
    hide Printed, Receipt;
    ItemCount(replies);
    if replies != [] {
      assert ItemsOf(replies)[1..] == ItemsOf(replies[1..]);
      if replies[0].Rejection? { assert |replies| == 1; }
      RejectionIsLast(replies[1..]);
      assert replies == [replies[0]] + replies[1..];
    }
  }

  /** From the bytes that arrive to the bytes that leave, for every way of cutting the requests into messages, every
      partial write and everything else that happens on the connection: the client reads one response for each complete
      request of its stream, and one for each rejection, exactly when the requests do not arrive faster than one for
      each message, every reply is sent on a connection that is up with nothing queued, and nothing is queued at the
      end. They are then the answers to these requests, in order, and a rejection at most, at the end. */
  lemma RequestsToReplies(hs: seq<Happening>)
    requires var events := EventsOf(FRESH_SESSION, hs);
             Possible(ESTABLISHED, events) && forall e :: e in events ==> Proper(e)
    ensures var events, ms := EventsOf(FRESH_SESSION, hs), Messages(hs);
            var requests, replies := HttpTheorems.RefRequests(HttpTheorems.Lines(HttpSpec.Concat(ms))), Replies(events);
            var t, n := After(ESTABLISHED, events), |requests| + Rejections(replies);
            && (R.ReadAll(t.written, t.shutdowns == 1, n).Some?
                <==> HttpTheorems.KeepsUp(ms) && AlwaysReady(ESTABLISHED, events) && t.queued == "")
            && (R.ReadAll(t.written, t.shutdowns == 1, n).Some? ==>
                  var xs := Exchanges(FRESH_SESSION, hs);
                  && RequestsOf(xs) == requests
                  && replies == AnswersOf(xs) + (if Rejections(replies) > 0 then [Rejection] else [])
                  && Silence !in replies
                  && R.ReadAll(t.written, t.shutdowns == 1, n) == Some(R.Receipts(ItemsOf(replies))))
  {
    hide HttpTheorems.RefRequests, HttpTheorems.Lines, HttpTheorems.KeepsUp, HttpSpec.Concat, HttpSpec.Serve;
    hide R.ReadAll, R.Receipts, R.LastMayClose, Possible, After, AlwaysReady, EventsOf, Exchanges, ItemsOf, Proper;
    hide Replies, RequestsOf, AnswersOf, Answered, Rejections;
    var events, ms, xs := EventsOf(FRESH_SESSION, hs), Messages(hs), Exchanges(FRESH_SESSION, hs);
    var requests := HttpTheorems.RefRequests(HttpTheorems.Lines(HttpSpec.Concat(ms)));
    var replies := Replies(events);
    ServedFromStart(hs);
    HappeningsReply(FRESH_SESSION, hs);
    HttpTheorems.FragmentationIndependence(ms);
    HttpTheorems.AllServedExactlyWhen(ms);
    var n := |requests| + Rejections(replies);
    assert |RequestsOf(xs)| == |requests| <==> RequestsOf(xs) == requests;
    AllRepliesArriveExactlyWhen(ESTABLISHED, events, n);
    if n == |replies| && AlwaysReady(ESTABLISHED, events) && After(ESTABLISHED, events).queued == "" {
      RejectionIsLast(replies);
    }
  }

  lemma ServedFromStart(hs: seq<Happening>)
    ensures HttpSpec.Serve(Messages(hs)).served == RequestsOf(Exchanges(FRESH_SESSION, hs))
    ensures HttpSpec.Serve(Messages(hs)).session == SessionAfter(FRESH_SESSION, hs)
  {
    HappeningsServe([], hs);
    hide HttpSpec.OnMessage;
    assert [] + Messages(hs) == Messages(hs);
    assert HttpSpec.Serve([]) == HttpSpec.Reply(FRESH_SESSION, []);
    var requests := RequestsOf(Exchanges(FRESH_SESSION, hs));
    assert [] + requests == requests;
  }

  // ---- a connection and its parser at work ----

  lemma {:induction false} OneMoreHappening(session: HttpSpec.Session, hs: seq<Happening>, h: Happening)
    ensures SessionAfter(session, hs + [h]) == Next(SessionAfter(session, hs), h)
    ensures EventsOf(session, hs + [h]) == EventsOf(session, hs) + EventOf(SessionAfter(session, hs), h)
    ensures Messages(hs + [h]) == Messages(hs) + if h.Arrives? then [h.message] else []
    decreases |hs|
  {
    hide EventOf, Next;
    var all := hs + [h];
    if hs == [] {
      assert all[1..] == [];
      assert EventOf(session, h) + [] == EventOf(session, h) == [] + EventOf(session, h);
    } else {
      assert all[1..] == hs[1..] + [h] && all[0] == hs[0];
      OneMoreHappening(Next(session, hs[0]), hs[1..], h);
    }
  }

  /** The events so far, and one more happening. */
  lemma HappensNext(hs: seq<Happening>, h: Happening, s: Output, t: Output)
    requires Possible(ESTABLISHED, EventsOf(FRESH_SESSION, hs)) && s == After(ESTABLISHED, EventsOf(FRESH_SESSION, hs))
    requires var more := EventOf(SessionAfter(FRESH_SESSION, hs), h); Possible(s, more) && t == After(s, more)
    ensures var events := EventsOf(FRESH_SESSION, hs + [h]);
            Possible(ESTABLISHED, events) && t == After(ESTABLISHED, events)
  {
    hide EventOf, EventsOf, SessionAfter, Possible, After;
    OneMoreHappening(FRESH_SESSION, hs, h);
    AfterConcat(ESTABLISHED, EventsOf(FRESH_SESSION, hs), EventOf(SessionAfter(FRESH_SESSION, hs), h));
  }

  /** What onMessage does is one happening. */
  lemma MessageHappens(session: HttpSpec.Session, m: string, reply: Reply, took: nat, s: Output) returns (h: Happening)
    requires OutputSpec.Valid(s, Delivery(reply, took))
    requires reply.Answer? <==> HttpSpec.OnMessage(session, m).served != []
    requires reply.Rejection? <==>
               HttpSpec.OnMessage(session, m).session.Serving? && !HttpSpec.Parse(session.ctx, session.buffer + m).ok
    ensures h.Arrives? && h.message == m
    ensures Possible(s, EventOf(session, h)) && After(s, EventOf(session, h)) == Run(s, Delivery(reply, took))
  {
    hide HttpSpec.OnMessage, HttpSpec.Parse, Delivery, Printed, CanHappen, Effect;
    h := Arrives(m, if reply.Answer? then reply.response else R.Response(0, "", false, [], ""), took);
    assert reply == ReplyOf(session, m, h.response);
    EventRuns(s, Replied(reply, took));
    if reply == Silence {
      NoDelivery(s, took);
    } else {
      LastEvent(s, Replied(reply, took));
    }
  }

  lemma NoDelivery(s: Output, took: nat)
    ensures Run(s, Delivery(Silence, took)) == s
  {
  }

  lemma WriteHappens(s: Output, took: nat, session: HttpSpec.Session)
    requires Enabled(s, Writable(took))
    ensures var h := Meanwhile(Writable(took));
            Possible(s, EventOf(session, h)) && After(s, EventOf(session, h)) == Step(s, Writable(took))
  {
    hide Step;
    LastEvent(s, Elsewhere(Writable(took)));
  }

  /** hs is what has happened on the connection since it was established. */
  ghost predicate Happened(hs: seq<Happening>, s: Output, session: HttpSpec.Session)
  {
    && Possible(ESTABLISHED, EventsOf(FRESH_SESSION, hs))
    && s == After(ESTABLISHED, EventsOf(FRESH_SESSION, hs)) && session == SessionAfter(FRESH_SESSION, hs)
  }

  lemma HappenedNext(hs: seq<Happening>, h: Happening, s: Output, t: Output, session: HttpSpec.Session)
    requires Happened(hs, s, session) && Possible(s, EventOf(session, h)) && t == After(s, EventOf(session, h))
    ensures Happened(hs + [h], t, Next(session, h))
    ensures Messages(hs + [h]) == Messages(hs) + if h.Arrives? then [h.message] else []
  {
    hide EventOf, EventsOf, SessionAfter, Possible, After, Next, Messages;
    HappensNext(hs, h, s, t);
    OneMoreHappening(FRESH_SESSION, hs, h);
  }

  lemma NothingHappened()
    ensures Happened([], ESTABLISHED, FRESH_SESSION) && Messages([]) == []
    ensures HttpSpec.Serve([]) == HttpSpec.Reply(FRESH_SESSION, [])
    ensures OutputSpec.Step(MADE, OutputSpec.Establish) == ESTABLISHED
  {
  }

  /** One message arrives. */
  method TakeMessage(connection: Connection, http: HttpConnection, message: string, ghost hs: seq<Happening>)
    returns (served: Option<HttpSpec.Request>, ghost longer: seq<Happening>)
    requires connection.Valid() && http.Valid() && http.input == connection.input
    requires Happened(hs, connection.View(), http.View())
    modifies connection`accepted, connection`state, connection.socket
    modifies connection.poller`channels, connection.poller`kernel
    modifies connection.channel, connection.output, connection.output.data
    modifies http, http.context, http.context.request, http.input, http.input.data
    ensures connection.Valid() && http.Valid() && Happened(longer, connection.View(), http.View())
    ensures Messages(longer) == Messages(hs) + [message]
    ensures http.View() == HttpSpec.OnMessage(old(http.View()), message).session
    ensures HttpSpec.OnMessage(old(http.View()), message).served == if served.Some? then [served.value] else []
    ensures connection.output.data == old(connection.output.data) || fresh(connection.output.data)
    ensures http.input.data == old(http.input.data) || fresh(http.input.data)
  {
    hide Connection.Wired, OutputSpec.Inv, HttpSpec.OnMessage, HttpSpec.Parse, HttpTheorems.SessionInvariant;
    hide Happened, Possible, After, Run, OutputSpec.Valid, Delivery, ReplyOf, EventOf;
    var receiveTime: int, setClose: Option<bool> := *, *;
    ghost var s, session := connection.View(), http.View();
    var reply;
    ghost var took;
    reply, served, took := OnMessage(connection, http, message, receiveTime, setClose);
    RejectionOnlyWhile(session, message);
    ghost var h := MessageHappens(session, message, reply, took, s);
    HappenedNext(hs, h, s, connection.View(), session);
    longer := hs + [h];
  }

  /** The socket becomes writable, as often as it likes. */
  method WriteOut(connection: Connection, ghost hs: seq<Happening>, ghost session: HttpSpec.Session)
    returns (ghost longer: seq<Happening>)
    requires connection.Valid() && Happened(hs, connection.View(), session)
    modifies connection.socket, connection.poller`channels, connection.poller`kernel, connection.channel
    modifies connection.output`readerIndex, connection.output`writerIndex
    ensures connection.Valid() && Happened(longer, connection.View(), session) && Messages(longer) == Messages(hs)
  {
    hide Connection.Wired, OutputSpec.Inv, Happened, Possible, After, EventOf, Step, Messages;
    var n: nat := *;
    longer := hs;
    while n > 0
      invariant connection.Valid() && Happened(longer, connection.View(), session) && Messages(longer) == Messages(hs)
    {
      ghost var s := connection.View();
      ghost var took := connection.HandleWrite();
      ghost var h := Meanwhile(Writable(took));
      WriteHappens(s, took, session);
      HappenedNext(longer, h, s, connection.View(), session);
      longer := longer + [h];
      n := n - 1;
    }
  }

  /** One message, and what the socket takes behind it. */
  method TakeTurn(connection: Connection, http: HttpConnection, message: string, ghost hs: seq<Happening>)
    returns (served: Option<HttpSpec.Request>, ghost longer: seq<Happening>)
    requires connection.Valid() && http.Valid() && http.input == connection.input
    requires Happened(hs, connection.View(), http.View())
    modifies connection`accepted, connection`state, connection.socket
    modifies connection.poller`channels, connection.poller`kernel
    modifies connection.channel, connection.output, connection.output.data
    modifies http, http.context, http.context.request, http.input, http.input.data
    ensures connection.Valid() && http.Valid() && Happened(longer, connection.View(), http.View())
    ensures Messages(longer) == Messages(hs) + [message]
    ensures http.View() == HttpSpec.OnMessage(old(http.View()), message).session
    ensures HttpSpec.OnMessage(old(http.View()), message).served == if served.Some? then [served.value] else []
    ensures connection.output.data == old(connection.output.data) || fresh(connection.output.data)
    ensures http.input.data == old(http.input.data) || fresh(http.input.data)
  {
    hide Happened, Messages, HttpSpec.OnMessage;
    served, longer := TakeMessage(connection, http, message, hs);
    hide Connection.Wired, OutputSpec.Inv, HttpTheorems.SessionInvariant;
    longer := WriteOut(connection, longer, http.View());
  }

  /** The messages arrive one by one, and in between the socket becomes writable as often as it likes. */
  method TakeMessages(connection: Connection, http: HttpConnection, messages: seq<string>)
    returns (served: seq<HttpSpec.Request>, ghost hs: seq<Happening>)
    requires connection.Valid() && http.Valid() && http.input == connection.input
    requires connection.View() == ESTABLISHED && http.View() == FRESH_SESSION
    modifies connection`accepted, connection`state, connection.socket
    modifies connection.poller`channels, connection.poller`kernel
    modifies connection.channel, connection.output, connection.output.data
    modifies http, http.context, http.context.request, http.input, http.input.data
    ensures connection.Valid() && http.Valid() && Happened(hs, connection.View(), http.View())
    ensures Messages(hs) == messages && HttpSpec.Serve(messages) == HttpSpec.Reply(http.View(), served)
  {
    NothingHappened();
    served, hs := [], [];
    hide Messages, Happened, HttpSpec.OnMessage, HttpSpec.Serve, Connection.Wired, OutputSpec.Inv;
    hide HttpTheorems.SessionInvariant;
    var i := 0;
    while i < |messages|
      invariant 0 <= i <= |messages| && connection.Valid() && http.Valid()
      invariant connection.output.data == old(connection.output.data) || fresh(connection.output.data)
      invariant http.input.data == old(http.input.data) || fresh(http.input.data)
      invariant Messages(hs) == messages[..i] && Happened(hs, connection.View(), http.View())
      invariant HttpSpec.Serve(messages[..i]) == HttpSpec.Reply(http.View(), served)
    {
      var one;
      one, hs := TakeTurn(connection, http, messages[i], hs);
      OneMoreMessage(messages[..i], messages[i]);
      assert messages[..i + 1] == messages[..i] + [messages[i]];
      if one.Some? { served := served + [one.value]; }
      i := i + 1;
    }
    assert messages[..i] == messages;
  }

  /** An established connection with its context, over one input buffer, at work on messages. The requests served are
      those of the session, and the output stream is a run of the events that RequestsToReplies speaks of. */
  method Converse(fd: int, messages: seq<string>)
    returns (connection: Connection, http: HttpConnection, served: seq<HttpSpec.Request>, ghost hs: seq<Happening>)
    ensures connection.Valid() && http.Valid() && http.input == connection.input
    ensures Messages(hs) == messages
    ensures served == HttpSpec.Serve(messages).served && http.View() == HttpSpec.Serve(messages).session
    ensures Possible(ESTABLISHED, EventsOf(FRESH_SESSION, hs))
    ensures connection.View() == After(ESTABLISHED, EventsOf(FRESH_SESSION, hs))
  {
    NothingHappened();
    hide Messages, Happened, HttpSpec.Serve, Connection.Wired, OutputSpec.Inv, HttpTheorems.SessionInvariant;
    connection := NewConnection(fd, "");
    http := new HttpConnection(connection.input);
    served, hs := TakeMessages(connection, http, messages);
    HappenedMeans(hs, connection.View(), http.View());
  }

  lemma HappenedMeans(hs: seq<Happening>, s: Output, session: HttpSpec.Session)
    requires Happened(hs, s, session)
    ensures Possible(ESTABLISHED, EventsOf(FRESH_SESSION, hs)) && s == After(ESTABLISHED, EventsOf(FRESH_SESSION, hs))
  {
  }

  /** A rejection is answered only while the parser has not aborted. */
  lemma RejectionOnlyWhile(session: HttpSpec.Session, m: string)
    ensures HttpSpec.OnMessage(session, m).session.Serving? ==> session.Serving? && HttpSpec.Callable(session.ctx)
  {
  }
}
