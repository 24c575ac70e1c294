/** The HTTP classes: a request filled in place, a resumable context over an input buffer, and the message
    callback of the server. Their methods are proved against the functions of HttpSpec. */
module HttpParser {
  import opened Wrappers
  import opened Text
  import opened HttpSpec
  import opened HttpTheorems
  import opened ByteBuffer

  class HttpRequest {
    var verb: Method
    var path: string
    var query: string
    var receiveTime: int
    var headers: map<string, string>

    constructor ()
      ensures View() == FRESH && receiveTime == 0
    {
      verb, path, query, receiveTime, headers := Invalid, "", "", 0, map[];
    }

    /** Everything but the receive time. */
    function View(): Request
      reads this
    {
      Request(verb, path, query, headers)
    }

    /** The source asserts that no method is set yet. */
    method SetMethod(m: string) returns (known: bool)
      requires verb == Invalid
      modifies this`verb
      ensures verb == MethodOf(m) && known == (verb != Invalid)
      ensures m == "GET" <==> verb == Get
      ensures m == "POST" <==> verb == Post
      ensures m == "HEAD" <==> verb == Head
      ensures m == "PUT" <==> verb == Put
      ensures m == "DELETE" <==> verb == Delete
    {
      if m == "GET" {
        verb := Get;
      } else if m == "POST" {
        verb := Post;
      } else if m == "HEAD" {
        verb := Head;
      } else if m == "PUT" {
        verb := Put;
      } else if m == "DELETE" {
        verb := Delete;
      } else {
        verb := Invalid;
      }
      known := verb != Invalid;
    }

    /** Files the header line under the text before the colon, with white space trimmed off both ends of the value. */
    method AddHeader(line: string, colon: nat)
      requires colon == IndexOf(line, ':') < |line|
      modifies this`headers
      ensures headers == old(headers)[HeaderField(line) := HeaderValue(line)]
      ensures forall field, raw, a, b :: line == field + ":" + raw && ':' !in field && StripsTo(raw, a, b) ==>
                headers == old(headers)[field := raw[a..b]]
    {
      var field := line[..colon];
      var start := colon + 1;
      ghost var raw := line[start..];
      while start < |line| && IsSpace(line[start])
        invariant colon < start <= |line|
        invariant TrimLeft(line[start..]) == TrimLeft(raw)
      {
        assert line[start..][1..] == line[start + 1..];
        start := start + 1;
      }
      var value := line[start..];
      assert TrimLeft(raw) == value;
      while value != "" && IsSpace(value[|value| - 1])
        invariant TrimRight(value) == Trim(raw)
        decreases |value|
      {
        value := value[..|value| - 1];
      }
      headers := headers[field := value];
      forall field, raw, a, b | line == field + ":" + raw && ':' !in field && StripsTo(raw, a, b)
        ensures field == HeaderField(line) && raw[a..b] == HeaderValue(line)
      {
        assert IsField(line, field, raw[a..b]);
        FieldUnique(line, field, raw[a..b]);
      }
    }

    /** Exchanges all fields with another request. */
    method Swap(that: HttpRequest)
      modifies this, that
      ensures View() == old(that.View()) && that.View() == old(View())
      ensures receiveTime == old(that.receiveTime) && that.receiveTime == old(receiveTime)
    {
      verb, that.verb := that.verb, verb;
      path, that.path := that.path, path;
      query, that.query := that.query, query;
      receiveTime, that.receiveTime := that.receiveTime, receiveTime;
      headers, that.headers := that.headers, headers;
    }
  }

  class HttpContext {
    var state: ParseState
    const request: HttpRequest

    constructor ()
      ensures View() == FRESH_CONTEXT && fresh(request)
    {
      state := ExpectRequestLine;
      request := new HttpRequest();
    }

    function View(): Context
      reads this, request
    {
      Context(state, request.View())
    }

    method ProcessRequestLine(line: string) returns (ok: bool)
      requires request.verb == Invalid
      modifies request
      ensures LineResult(ok, request.View()) == HttpSpec.ProcessRequestLine(old(request.View()), line)
      ensures request.receiveTime == old(request.receiveTime)
    {
      ok := false;
      var start := 0;
      var space := IndexOf(line, ' ');
      if space != |line| {
        var known := request.SetMethod(line[..space]);
        if known {
          start := space + 1;
          var rest := line[start..];
          var space2 := IndexOf(rest, ' ');
          if space2 != |rest| {
            var target := rest[..space2];
            var question := IndexOf(target, '?');
            if question != |target| {
              request.path := target[..question];
              request.query := target[question..];
            } else {
              request.path := target;
            }
            var version := rest[space2 + 1..];
            ok := |version| == 8 && version == VERSION;
          }
        }
      }
    }

    /** The body of the parsing loop: at most one line. */
    method ParseLine(buffer: Buffer, receiveTime: int) returns (isOk: bool, hasMore: bool)
      requires buffer.Valid() && Callable(View())
      modifies this, request, buffer`readerIndex, buffer`writerIndex
      ensures buffer.Valid()
      ensures Loop(View(), buffer.Contents(), isOk, hasMore)
           == Iterate(Loop(old(View()), old(buffer.Contents()), true, true))
      ensures request.receiveTime ==
                if old(state) == ExpectRequestLine && state != ExpectRequestLine then receiveTime
                else old(request.receiveTime)
      ensures old(state) != ExpectRequestLine ==> state != ExpectRequestLine
    {
      hide HttpSpec.ProcessRequestLine, FindCrlf, IndexOf, HeaderValue, HeaderField;
      isOk, hasMore := true, true;
      var readable := buffer.ToString();
      var crlf := FindCrlf(readable);
      if state == ExpectRequestLine {
        if crlf < |readable| {
          isOk := ProcessRequestLine(readable[..crlf]);
          if isOk {
            request.receiveTime := receiveTime;
            buffer.Retrieve(crlf + 2);
            state := ExpectHeader;
          } else {
            hasMore := false;
          }
        } else {
          hasMore := false;
        }
      } else {
        if crlf < |readable| {
          var line := readable[..crlf];
          var colon := IndexOf(line, ':');
          if colon != |line| {
            request.AddHeader(line, colon);
          } else {
            state := GotAll;
            hasMore := false;
          }
          buffer.Retrieve(crlf + 2);
        } else {
          hasMore := false;
        }
      }
    }

    /** Parses as far as the buffer allows. Entered after the last header or in the body state the source would
        spin; entered with a method already set it would abort: see LoopTerminatesExactlyWhen and
        AbortsExactlyOnAssertion. */
    method ParseRequest(buffer: Buffer, receiveTime: int) returns (isOk: bool)
      requires buffer.Valid() && Callable(View())
      modifies this, request, buffer`readerIndex, buffer`writerIndex
      ensures buffer.Valid()
      ensures Outcome(View(), buffer.Contents(), isOk) == Parse(old(View()), old(buffer.Contents()))
      ensures request.receiveTime ==
                if old(state) == ExpectRequestLine && state != ExpectRequestLine then receiveTime
                else old(request.receiveTime)
    {
      hide Parse, Iterate;
      isOk := true;
      var hasMore := true;
      ghost var goal := Parse(View(), buffer.Contents());
      while hasMore
        invariant buffer.Valid()
        invariant HeadsFor(Loop(View(), buffer.Contents(), isOk, hasMore), goal)
        invariant request.receiveTime ==
                    if old(state) == ExpectRequestLine && state != ExpectRequestLine then receiveTime
                    else old(request.receiveTime)
        invariant old(state) != ExpectRequestLine ==> state != ExpectRequestLine
        decreases hasMore, |buffer.Contents()|
      {
        OneRound(Loop(View(), buffer.Contents(), isOk, hasMore), goal);
        isOk, hasMore := ParseLine(buffer, receiveTime);
      }
    }

    method Reset()
      modifies this, request
      ensures View() == FRESH_CONTEXT && request.receiveTime == 0
    {
      state := ExpectRequestLine;
      var dummy := new HttpRequest();
      request.Swap(dummy);
    }
  }

  /** One connection with the HTTP server behind it: the input buffer and the context of the connection. aborted
      is set where the assertion in setMethod ends the process. */
  class HttpConnection {
    const context: HttpContext
    const input: Buffer
    var aborted: bool

    ghost predicate Valid()
      reads this, context, context.request, input, input.data
    {
      input.Valid() && SessionInvariant(View())
    }

    ghost function View(): Session
      reads this, context, context.request, input, input.data
      requires input.Valid()
    {
      if aborted then Aborted else Serving(context.View(), input.Contents())
    }

    /** For a connection that has just been established, over its own input buffer. */
    constructor (input: Buffer)
      requires input.Valid() && input.Contents() == ""
      ensures Valid() && View() == Serving(FRESH_CONTEXT, "") && this.input == input
      ensures fresh(context) && fresh(context.request)
    {
      context := new HttpContext();
      this.input := input;
      aborted := false;
    }

    /** The bytes of one message are appended to the input, then onMessage runs. reply400 tells whether a rejected
        line is answered; served is the request handed to onRequest, if any. */
    method OnMessage(message: string, receiveTime: int) returns (reply400: bool, served: Option<Request>)
      requires Valid()
      modifies this, context, context.request, input, input.data
      ensures Valid() && (input.data == old(input.data) || fresh(input.data))
      ensures var r := HttpSpec.OnMessage(old(View()), message);
              View() == r.session && r.served == if served.Some? then [served.value] else []
      ensures reply400 <==> !aborted && !Parse(old(context.View()), old(input.Contents()) + message).ok
      ensures !(reply400 && served.Some?)
    {
      hide Parse, SessionInvariant;
      MessageKeepsInvariant(View(), message);
      reply400, served := false, None;
      if aborted || !Callable(context.View()) {
        aborted := true;
        return;
      }
      input.Append(message);
      var ok := context.ParseRequest(input, receiveTime);
      reply400 := !ok;
      if context.state == GotAll {
        served := Some(context.request.View());
        context.Reset();
      }
    }
  }
}
