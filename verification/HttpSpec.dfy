/** The HTTP/1.1 request parser as functions on values: one call of parseRequest, the loop behind it one
    iteration at a time, and what a session of messages makes of them. The classes of HttpParser are
    proved against these functions; HttpTheorems proves what the functions mean. */
module HttpSpec {
  import opened Text

  datatype Method = Invalid | Get | Post | Head | Put | Delete

  function MethodString(m: Method): string
  {
    match m
    case Invalid => "UNKNOWN"
    case Get => "GET"
    case Post => "POST"
    case Head => "HEAD"
    case Put => "PUT"
    case Delete => "DELETE"
  }

  function MethodOf(s: string): Method
  {
    if s == "GET" then Get
    else if s == "POST" then Post
    else if s == "HEAD" then Head
    else if s == "PUT" then Put
    else if s == "DELETE" then Delete
    else Invalid
  }

  /** A request without its receive time. */
  datatype Request = Request(verb: Method, path: string, query: string, headers: map<string, string>)

  const FRESH := Request(Invalid, "", "", map[])

  datatype ParseState = ExpectRequestLine | ExpectHeader | ExpectBody | GotAll

  datatype Context = Context(state: ParseState, request: Request)

  const FRESH_CONTEXT := Context(ExpectRequestLine, FRESH)

  const VERSION := "HTTP/1.1"

  datatype LineResult = LineResult(ok: bool, request: Request)

  /** processRequestLine; a rejected line may leave its method and target behind. */
  function ProcessRequestLine(r: Request, line: string): LineResult
  {
    var space := IndexOf(line, ' ');
    if space == |line| || MethodOf(line[..space]) == Invalid then LineResult(false, r)
    else
      var r1 := r.(verb := MethodOf(line[..space]));
      var rest := line[space + 1..];
      var space2 := IndexOf(rest, ' ');
      if space2 == |rest| then LineResult(false, r1)
      else
        var target := rest[..space2];
        var question := IndexOf(target, '?');
        var r2 := if question < |target| then r1.(path := target[..question], query := target[question..])
                  else r1.(path := target);
        LineResult(rest[space2 + 1..] == VERSION, r2)
  }

  function HeaderField(line: string): string
  {
    line[..IndexOf(line, ':')]
  }

  function HeaderValue(line: string): string
    requires IndexOf(line, ':') < |line|
  {
    Trim(line[IndexOf(line, ':') + 1..])
  }

  /** The setMethod assertion: a request line may only be parsed into a request without a method. */
  predicate Callable(c: Context)
  {
    c.state == ExpectHeader || (c.state == ExpectRequestLine && c.request.verb == Invalid)
  }

  datatype Outcome = Outcome(ctx: Context, rest: string, ok: bool) {
    /** The call returned only because no further line is complete. */
    predicate Starved() { ok && ctx.state != GotAll }
  }

  function AddHeader(c: Context, line: string): Context
    requires IndexOf(line, ':') < |line|
  {
    c.(request := c.request.(headers := c.request.headers[HeaderField(line) := HeaderValue(line)]))
  }

  /** What one complete line does: parsing goes on, the request is complete, or the line is rejected. */
  datatype LineEffect = Continue(ctx: Context) | Finish(ctx: Context) | Reject(ctx: Context)

  function OnLine(c: Context, line: string): (e: LineEffect)
    requires Callable(c)
    ensures e.Continue? ==> e.ctx.state == ExpectHeader
    ensures e.Finish? ==> e.ctx.state == GotAll
    ensures e.Reject? ==> e.ctx.state == ExpectRequestLine
  {
    if c.state == ExpectRequestLine then
      var l := ProcessRequestLine(c.request, line);
      if l.ok then Continue(Context(ExpectHeader, l.request)) else Reject(c.(request := l.request))
    else if IndexOf(line, ':') < |line| then Continue(AddHeader(c, line))
    else Finish(c.(state := GotAll))
  }

  /** One call of parseRequest on a buffer holding s. A rejected line stays in the buffer. */
  function Parse(c: Context, s: string): (o: Outcome)
    requires Callable(c)
    ensures |o.rest| <= |s|
    ensures o.ctx.state == GotAll ==> |o.rest| + 2 <= |s| && o.ok
    ensures o.ctx.state != ExpectBody
    decreases |s|
  {
    var i := FindCrlf(s);
    if i == |s| then Outcome(c, s, true)
    else
      match OnLine(c, s[..i])
      case Continue(c') => Parse(c', s[i+2..])
      case Finish(c') => Outcome(c', s[i+2..], true)
      case Reject(c') => Outcome(c', s, false)
  }

  // ---- the while loop of parseRequest, one iteration at a time ----

  datatype Loop = Loop(ctx: Context, rest: string, ok: bool, hasMore: bool)

  /** After the last header, and in the body state, neither branch of the loop body does anything. (Where the
      assertion of setMethod would fail the loop is not entered: see HitsMethodAssertion.) */
  function Iterate(l: Loop): Loop
  {
    var i := FindCrlf(l.rest);
    if !l.hasMore || !Callable(l.ctx) then l
    else if i == |l.rest| then l.(hasMore := false)
    else
      match OnLine(l.ctx, l.rest[..i])
      case Continue(c') => Loop(c', l.rest[i+2..], l.ok, true)
      case Finish(c') => Loop(c', l.rest[i+2..], l.ok, false)
      case Reject(c') => Loop(c', l.rest, false, false)
  }

  function Iterations(l: Loop, n: nat): Loop
    decreases n
  {
    if n == 0 then l else Iterations(Iterate(l), n - 1)
  }

  // ---- sessions: messages arriving on one connection ----

  /** A connection as HttpServer::onMessage sees it; Aborted after the assertion in setMethod has failed. */
  datatype Session = Serving(ctx: Context, buffer: string) | Aborted

  datatype Reply = Reply(session: Session, served: seq<Request>)

  /** A complete line with a space in it calls setMethod, whose assertion fails when a method is already set. */
  predicate HitsMethodAssertion(c: Context, s: string)
  {
    var i := FindCrlf(s);
    c.state == ExpectRequestLine && c.request.verb != Invalid && i < |s| && IndexOf(s[..i], ' ') < i
  }

  /** handleRead appends the message to the input buffer, then onMessage parses once and serves at most one request.
      AbortsExactlyOnAssertion in HttpTheorems shows that a session aborts only where the assertion fails. */
  function OnMessage(session: Session, message: string): Reply
  {
    if session.Aborted? || !Callable(session.ctx) then Reply(Aborted, [])
    else
      var o := Parse(session.ctx, session.buffer + message);
      if o.ctx.state == GotAll then Reply(Serving(FRESH_CONTEXT, o.rest), [o.ctx.request])
      else Reply(Serving(o.ctx, o.rest), [])
  }

  /** Everything a fresh connection does with the messages ms, in order. */
  function Serve(ms: seq<string>): Reply
  {
    if ms == [] then Reply(Serving(FRESH_CONTEXT, ""), [])
    else
      var before := Serve(ms[..|ms|-1]);
      var last := OnMessage(before.session, ms[|ms|-1]);
      Reply(last.session, before.served + last.served)
  }

  function Concat(ms: seq<string>): string
  {
    if ms == [] then "" else Concat(ms[..|ms|-1]) + ms[|ms|-1]
  }
}
