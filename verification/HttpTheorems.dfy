/** What the incremental parser means: a request-line grammar, a one-shot reference parser over whole lines,
    independence of how the stream is cut into messages, and the exact places where the loop diverges, the
    session aborts, or a complete request has to wait. */
module HttpTheorems {
  import opened Wrappers
  import opened Text
  import opened HttpSpec

  // ---- the request line and its grammar (section 3.1.1 of RFC 7230, method and version restricted) ----

  predicate Free(s: string, c: char)
  {
    forall k :: 0 <= k < |s| ==> s[k] != c
  }

  predicate IsRequestLine(line: string, m: Method, path: string, query: string)
  {
    && m != Invalid
    && Free(path, ' ') && Free(path, '?') && Free(query, ' ')
    && (query == "" || query[0] == '?')
    && line == MethodString(m) + " " + path + query + " " + VERSION
  }

  lemma SplitAtFirst(s: string, a: string, c: char, b: string)
    requires s == a + [c] + b && Free(a, c)
    ensures IndexOf(s, c) == |a| && s[..|a|] == a && s[|a|+1..] == b
  {
    assert s[|a|] == c;
    assert forall k :: 0 <= k < |a| ==> s[k] == a[k];
  }

  lemma FreeHasNone(s: string, c: char)
    requires Free(s, c)
    ensures IndexOf(s, c) == |s|
  {
  }

  lemma MethodRoundTrip(m: Method)
    requires m != Invalid
    ensures MethodOf(MethodString(m)) == m && Free(MethodString(m), ' ')
  {
  }

  lemma MethodOfInverse(s: string)
    requires MethodOf(s) != Invalid
    ensures MethodString(MethodOf(s)) == s
  {
  }

  lemma TargetSplits(path: string, query: string)
    requires Free(path, '?') && (query == "" || query[0] == '?')
    ensures var target, q := path + query, IndexOf(path + query, '?');
            q == |path| && target[..q] == path && target[q..] == query && (q < |target| <==> query != "")
  {
    if query == "" {
      assert path + query == path;
      FreeHasNone(path, '?');
    } else {
      assert path + query == path + ['?'] + query[1..];
      SplitAtFirst(path + query, path, '?', query[1..]);
    }
  }

  lemma RequestLineAccepted(r: Request, line: string, m: Method, path: string, query: string)
    requires IsRequestLine(line, m, path, query) && r.query == ""
    ensures ProcessRequestLine(r, line) == LineResult(true, Request(m, path, query, r.headers))
  {
    hide MethodOf, MethodString, IndexOf;
    var verb, target := MethodString(m), path + query;
    var rest := target + " " + VERSION;
    MethodRoundTrip(m);
    LineSplits(line, verb, target, VERSION);
    TargetSplits(path, query);
    if query == "" { assert target == path; }
  }

  lemma LineSplits(line: string, verb: string, target: string, version: string)
    requires line == verb + " " + target + " " + version && Free(verb, ' ') && Free(target, ' ')
    ensures IndexOf(line, ' ') == |verb| < |line| && line[..|verb|] == verb
    ensures var rest := line[|verb|+1..];
            IndexOf(rest, ' ') == |target| < |rest| && rest[..|target|] == target && rest[|target|+1..] == version
  {
    var rest := target + [' '] + version;
    assert line == verb + [' '] + rest;
    SplitAtFirst(line, verb, ' ', rest);
    SplitAtFirst(rest, target, ' ', version);
  }

  lemma BeforeFirst(s: string, c: char)
    ensures Free(s[..IndexOf(s, c)], c)
  {
  }

  lemma FreeParts(a: string, b: string, c: char)
    requires Free(a + b, c)
    ensures Free(a, c) && Free(b, c)
  {
    assert forall k :: 0 <= k < |a| ==> (a + b)[k] == a[k];
    assert forall k :: 0 <= k < |b| ==> (a + b)[|a| + k] == b[k];
  }

  /** The two parts of a target: the path stops before the first '?'. */
  lemma TargetParts(target: string, path: string, query: string)
    requires Free(target, ' ')
    requires var q := IndexOf(target, '?');
             if q < |target| then path == target[..q] && query == target[q..] else path == target && query == ""
    ensures target == path + query && Free(path, ' ') && Free(path, '?') && Free(query, ' ')
    ensures query == "" || query[0] == '?'
  {
    BeforeFirst(target, '?');
    assert target == path + query;
    FreeParts(path, query, ' ');
  }

  lemma RequestLineSound(r: Request, line: string)
    requires r.query == "" && ProcessRequestLine(r, line).ok
    ensures var q := ProcessRequestLine(r, line).request;
            IsRequestLine(line, q.verb, q.path, q.query) && q.headers == r.headers
  {
    hide MethodOf, MethodString, IndexOf;
    var q := ProcessRequestLine(r, line).request;
    var space := IndexOf(line, ' ');
    var rest := line[space + 1..];
    var space2 := IndexOf(rest, ' ');
    MethodOfInverse(line[..space]);
    BeforeFirst(rest, ' ');
    TargetParts(rest[..space2], q.path, q.query);
    LineRebuilt(line, space, space2, q.path, q.query);
  }

  lemma LineRebuilt(line: string, space: nat, space2: nat, path: string, query: string)
    requires space < |line| && line[space] == ' ' && space + 1 + space2 < |line| && line[space + 1 + space2] == ' '
    requires line[space + 1..][..space2] == path + query
    ensures line == line[..space] + " " + path + query + " " + line[space + 1..][space2 + 1..]
  {
    var rest := line[space + 1..];
    assert line == line[..space] + " " + rest;
    assert rest == path + query + " " + rest[space2 + 1..];
  }

  /** processRequestLine accepts exactly the grammar, and finds the only method, path and query there are. */
  lemma {:induction false} RequestLineInverse(r: Request, line: string)
    requires r.query == ""
    ensures ProcessRequestLine(r, line).ok <==> exists m, path, query :: IsRequestLine(line, m, path, query)
    ensures forall m, path, query :: IsRequestLine(line, m, path, query) ==>
              ProcessRequestLine(r, line).request == Request(m, path, query, r.headers)
  {
    forall m, path, query | IsRequestLine(line, m, path, query)
      ensures ProcessRequestLine(r, line) == LineResult(true, Request(m, path, query, r.headers))
    {
      RequestLineAccepted(r, line, m, path, query);
    }
    if ProcessRequestLine(r, line).ok {
      RequestLineSound(r, line);
    }
  }

  /** The request lines there are, word for word. */
  lemma RequestLinesAre(path: string, query: string)
    requires Free(path, ' ') && Free(path, '?') && Free(query, ' ') && (query == "" || query[0] == '?')
    ensures ProcessRequestLine(FRESH, "GET" + " " + path + query + " " + "HTTP/1.1")
         == LineResult(true, Request(Get, path, query, map[]))
    ensures ProcessRequestLine(FRESH, "POST" + " " + path + query + " " + "HTTP/1.1")
         == LineResult(true, Request(Post, path, query, map[]))
    ensures ProcessRequestLine(FRESH, "HEAD" + " " + path + query + " " + "HTTP/1.1")
         == LineResult(true, Request(Head, path, query, map[]))
    ensures ProcessRequestLine(FRESH, "PUT" + " " + path + query + " " + "HTTP/1.1")
         == LineResult(true, Request(Put, path, query, map[]))
    ensures ProcessRequestLine(FRESH, "DELETE" + " " + path + query + " " + "HTTP/1.1")
         == LineResult(true, Request(Delete, path, query, map[]))
  {
    hide ProcessRequestLine;
    RequestLineAccepted(FRESH, "GET" + " " + path + query + " " + "HTTP/1.1", Get, path, query);
    RequestLineAccepted(FRESH, "POST" + " " + path + query + " " + "HTTP/1.1", Post, path, query);
    RequestLineAccepted(FRESH, "HEAD" + " " + path + query + " " + "HTTP/1.1", Head, path, query);
    RequestLineAccepted(FRESH, "PUT" + " " + path + query + " " + "HTTP/1.1", Put, path, query);
    RequestLineAccepted(FRESH, "DELETE" + " " + path + query + " " + "HTTP/1.1", Delete, path, query);
  }

  // ---- resuming the parser ----

  /** A call that starves can be resumed: parsing s and then t is parsing s + t. Any other outcome is final. */
  lemma {:induction false} ParseResumes(c: Context, s: string, t: string)
    requires Callable(c)
    ensures var o := Parse(c, s);
            && (o.Starved() ==> Callable(o.ctx) && Parse(c, s + t) == Parse(o.ctx, o.rest + t))
            && (!o.Starved() ==> Parse(c, s + t) == o.(rest := o.rest + t))
    decreases |s|
  {
    hide OnLine, FindCrlf, IndexOf;
    var i := FindCrlf(s);
    if i < |s| {
      FindCrlfStable(s, t);
      assert (s + t)[..i] == s[..i];
      assert (s + t)[i+2..] == s[i+2..] + t;
      var e := OnLine(c, s[..i]);
      if e.Continue? { ParseResumes(e.ctx, s[i+2..], t); }
    }
  }

  // ---- termination of the loop ----

  lemma {:induction false} StoppedStays(l: Loop, n: nat)
    requires !l.hasMore
    ensures Iterations(l, n) == l
  {
    if n > 0 { StoppedStays(l, n - 1); }
  }

  /** The loop state l is on its way to the outcome o. */
  predicate HeadsFor(l: Loop, o: Outcome)
  {
    if l.hasMore then Callable(l.ctx) && l.ok && Parse(l.ctx, l.rest) == o else l == Loop(o.ctx, o.rest, o.ok, false)
  }

  lemma {:induction false} OneRound(l: Loop, o: Outcome)
    requires HeadsFor(l, o) && l.hasMore
    ensures HeadsFor(Iterate(l), o)
    ensures Iterate(l).hasMore ==> |Iterate(l).rest| + 2 <= |l.rest|
  {
  }

  lemma {:induction false} LoopArrives(l: Loop, o: Outcome, n: nat)
    requires HeadsFor(l, o) && (l.hasMore ==> |l.rest| / 2 < n)
    ensures Iterations(l, n) == Loop(o.ctx, o.rest, o.ok, false)
    decreases n
  {
    if !l.hasMore {
      StoppedStays(l, n);
    } else {
      OneRound(l, o);
      LoopArrives(Iterate(l), o, n - 1);
    }
  }

  lemma {:induction false} LoopSpins(l: Loop, n: nat)
    requires l.hasMore && (l.ctx.state == GotAll || l.ctx.state == ExpectBody)
    ensures Iterations(l, n) == l
  {
    if n > 0 { LoopSpins(l, n - 1); }
  }

  /** The loop stops, within |s|/2 + 1 rounds and with the result of Parse, unless it is entered after the
      last header (or in the body state nothing ever reaches); entered there, it spins forever. */
  lemma {:induction false} LoopTerminatesExactlyWhen(c: Context, s: string)
    requires c.state == ExpectRequestLine ==> c.request.verb == Invalid
    ensures (exists n: nat :: !Iterations(Loop(c, s, true, true), n).hasMore)
       <==> (c.state == ExpectRequestLine || c.state == ExpectHeader)
    ensures Callable(c) ==>
              var l := Iterations(Loop(c, s, true, true), |s| / 2 + 1);
              !l.hasMore && Outcome(l.ctx, l.rest, l.ok) == Parse(c, s)
  {
    var l := Loop(c, s, true, true);
    if Callable(c) {
      LoopArrives(l, Parse(c, s), |s| / 2 + 1);
      assert !Iterations(l, |s| / 2 + 1).hasMore;
    } else {
      forall n: nat ensures Iterations(l, n).hasMore { LoopSpins(l, n); }
    }
  }

  // ---- the one-shot reference ----

  /** The complete lines of a stream, without their CRLF. */
  function Lines(s: string): seq<string>
    decreases |s|
  {
    var i := FindCrlf(s);
    if i == |s| then [] else [s[..i]] + Lines(s[i+2..])
  }

  predicate IsHeaderLine(line: string)
  {
    ':' in line
  }

  /** How many header lines stand before the first line without a colon, which ends the request. */
  function HeaderLines(lines: seq<string>): (n: nat)
    ensures n <= |lines|
  {
    if lines == [] || !IsHeaderLine(lines[0]) then 0 else 1 + HeaderLines(lines[1..])
  }

  lemma ColonFound(line: string)
    ensures IsHeaderLine(line) <==> IndexOf(line, ':') < |line|
  {
    var i := IndexOf(line, ':');
    if i == |line| { assert forall k :: 0 <= k < |line| ==> line[k] != ':'; }
  }

  /** A header line is a field name up to the first colon, and behind it the value in any white space. */
  ghost predicate IsField(line: string, field: string, value: string)
  {
    exists raw, a, b :: line == field + ":" + raw && ':' !in field && StripsTo(raw, a, b) && value == raw[a..b]
  }

  lemma FieldUnique(line: string, field: string, value: string)
    requires IsField(line, field, value)
    ensures IndexOf(line, ':') < |line| && field == HeaderField(line) && value == HeaderValue(line)
  {
    var raw, a, b :| line == field + ":" + raw && ':' !in field && StripsTo(raw, a, b) && value == raw[a..b];
    assert line == field + [':'] + raw && Free(field, ':');
    SplitAtFirst(line, field, ':', raw);
    TrimStrips(raw, a, b);
  }

  lemma FieldExists(line: string)
    requires IsHeaderLine(line)
    ensures IndexOf(line, ':') < |line| && IsField(line, HeaderField(line), HeaderValue(line))
  {
    hide IndexOf, StripsTo, Trim;
    ColonFound(line);
    var i := IndexOf(line, ':');
    var field, raw := line[..i], line[i+1..];
    BeforeFirst(line, ':');
    SplitAt(line, i);
    var a, b := StripExists(raw);
    TrimStrips(raw, a, b);
    FieldFrom(line, field, raw, a, b);
  }

  lemma SplitAt(line: string, i: nat)
    requires i < |line| && line[i] == ':'
    ensures line == line[..i] + ":" + line[i+1..]
  {
  }

  lemma FieldFrom(line: string, field: string, raw: string, a: int, b: int)
    requires line == field + ":" + raw && ':' !in field && StripsTo(raw, a, b)
    ensures 0 <= a <= b <= |raw| && IsField(line, field, raw[a..b])
  {
  }

  /** The header map of a block of header lines, in order. */
  ghost function HeaderMap(base: map<string, string>, lines: seq<string>): map<string, string>
    requires forall l :: l in lines ==> IsHeaderLine(l)
    decreases |lines|
  {
    if lines == [] then base
    else
      FieldExists(lines[0]);
      var field, value :| IsField(lines[0], field, value);
      HeaderMap(base[field := value], lines[1..])
  }

  lemma HeaderMapFront(base: map<string, string>, lines: seq<string>)
    requires lines != [] && forall l :: l in lines ==> IsHeaderLine(l)
    ensures IndexOf(lines[0], ':') < |lines[0]|
    ensures HeaderMap(base, lines) == HeaderMap(base[HeaderField(lines[0]) := HeaderValue(lines[0])], lines[1..])
  {
    hide HeaderField, HeaderValue, IsField;
    FieldExists(lines[0]);
    forall field, value | IsField(lines[0], field, value)
      ensures field == HeaderField(lines[0]) && value == HeaderValue(lines[0])
    {
      FieldUnique(lines[0], field, value);
    }
  }

  lemma {:induction false} HeaderLinesAreHeaders(lines: seq<string>)
    ensures forall l :: l in lines[..HeaderLines(lines)] ==> IsHeaderLine(l)
    ensures HeaderLines(lines) < |lines| ==> !IsHeaderLine(lines[HeaderLines(lines)])
  {
    if lines != [] && IsHeaderLine(lines[0]) {
      HeaderLinesAreHeaders(lines[1..]);
      var n := HeaderLines(lines[1..]);
      assert lines[..n+1] == [lines[0]] + lines[1..][..n];
    }
  }

  /** The request a line starts, by the grammar alone. */
  ghost function RequestOf(line: string): Option<Request>
  {
    if exists m, path, query :: IsRequestLine(line, m, path, query) then
      var m, path, query :| IsRequestLine(line, m, path, query);
      Some(Request(m, path, query, map[]))
    else None
  }

  lemma {:induction false} RequestOfLine(line: string)
    ensures var l := ProcessRequestLine(FRESH, line);
            RequestOf(line) == if l.ok then Some(l.request) else None
  {
    RequestLineInverse(FRESH, line);
  }

  /** Reads all requests off a whole list of lines, by the grammar: up to the first bad request line, or the
      first request that is not complete. */
  ghost function RefRequests(lines: seq<string>): seq<Request>
  {
    if lines != [] && RequestOf(lines[0]).Some? && HeaderLines(lines[1..]) < |lines| - 1 then
      var n, r := HeaderLines(lines[1..]), RequestOf(lines[0]).value;
      HeaderLinesAreHeaders(lines[1..]);
      [r.(headers := HeaderMap(r.headers, lines[1..][..n]))] + RefRequests(lines[n+2..])
    else []
  }

  /** What the incremental parser still gets out of a buffer when it is called again and again. */
  function Pending(c: Context, s: string): seq<Request>
    requires Callable(c)
    decreases |s|
  {
    var o := Parse(c, s);
    if o.ctx.state == GotAll then [o.ctx.request] + Pending(FRESH_CONTEXT, o.rest) else []
  }

  lemma HeaderLinesFront(base: map<string, string>, first: string, lines: seq<string>)
    requires IsHeaderLine(first)
    ensures HeaderLines([first] + lines) == HeaderLines(lines) + 1
    ensures IndexOf(first, ':') < |first|
    ensures (forall l :: l in lines[..HeaderLines(lines)] ==> IsHeaderLine(l))
    ensures (forall l :: l in ([first] + lines)[..HeaderLines(lines)+1] ==> IsHeaderLine(l))
    ensures HeaderMap(base, ([first] + lines)[..HeaderLines(lines)+1])
         == HeaderMap(base[HeaderField(first) := HeaderValue(first)], lines[..HeaderLines(lines)])
  {
    var n := HeaderLines(lines);
    ColonFound(first);
    HeaderLinesAreHeaders(lines);
    assert ([first] + lines)[1..] == lines;
    assert ([first] + lines)[..n+1] == [first] + lines[..n];
    assert ([first] + lines[..n])[1..] == lines[..n];
    HeaderMapFront(base, [first] + lines[..n]);
  }

  /** The reference view of a header block in the stream s: the request with its headers, and the lines behind it. */
  ghost predicate HeaderBlock(r: Request, lines: seq<string>, o: Outcome)
  {
    var n := HeaderLines(lines);
    HeaderLinesAreHeaders(lines);
    && (o.ctx.state == GotAll <==> n < |lines|)
    && (n < |lines| ==> o.ctx.request == r.(headers := HeaderMap(r.headers, lines[..n])))
    && (n < |lines| ==> Lines(o.rest) == lines[n+1..])
  }

  lemma {:induction false} HeaderBlockFront(r: Request, first: string, lines: seq<string>, o: Outcome)
    requires IsHeaderLine(first) && IndexOf(first, ':') < |first|
    requires HeaderBlock(r.(headers := r.headers[HeaderField(first) := HeaderValue(first)]), lines, o)
    ensures HeaderBlock(r, [first] + lines, o)
  {
    var n := HeaderLines(lines);
    HeaderLinesAreHeaders(lines);
    HeaderLinesAreHeaders([first] + lines);
    HeaderLinesFront(r.headers, first, lines);
    if n < |lines| { assert ([first] + lines)[n+2..] == lines[n+1..]; }
  }

  lemma HeaderBlockEnd(r: Request, lines: seq<string>, o: Outcome)
    requires lines == [] || !IsHeaderLine(lines[0])
    requires lines == [] ==> o.ctx.state != GotAll
    requires lines != [] ==> o.ctx == Context(GotAll, r) && Lines(o.rest) == lines[1..]
    ensures HeaderBlock(r, lines, o)
  {
    HeaderLinesAreHeaders(lines);
  }

  lemma {:induction false} HeadersByLines(r: Request, s: string)
    ensures HeaderBlock(r, Lines(s), Parse(Context(ExpectHeader, r), s))
    decreases |s|
  {
    hide HeaderBlock, FindCrlf, IndexOf;
    var i := FindCrlf(s);
    var c := Context(ExpectHeader, r);
    var o := Parse(c, s);
    if i == |s| {
      HeaderBlockEnd(r, [], o);
    } else {
      var first, tail := s[..i], s[i+2..];
      ColonFound(first);
      if IsHeaderLine(first) {
        HeadersByLines(AddHeader(c, first).request, tail);
        HeaderBlockFront(r, first, Lines(tail), o);
      } else {
        assert Lines(s)[1..] == Lines(tail);
        HeaderBlockEnd(r, Lines(s), o);
      }
    }
  }

  lemma ReferenceUnfolds(first: string, lines: seq<string>, r: Request, o: Outcome)
    requires RequestOf(first) == Some(r) && HeaderBlock(r, lines, o)
    ensures RefRequests([first] + lines) ==
              if o.ctx.state == GotAll then [o.ctx.request] + RefRequests(Lines(o.rest)) else []
  {
    var all, n := [first] + lines, HeaderLines(lines);
    HeaderLinesAreHeaders(lines);
    assert all[0] == first && all[1..] == lines;
    if n < |lines| {
      assert all[n+2..] == lines[n+1..];
      assert RefRequests(all) == [r.(headers := HeaderMap(r.headers, lines[..n]))] + RefRequests(all[n+2..]);
    }
  }

  lemma {:induction false} FirstLineUnfolds(s: string)
    requires FindCrlf(s) < |s|
    ensures var first, tail := s[..FindCrlf(s)], s[FindCrlf(s)+2..];
            var line := ProcessRequestLine(FRESH, first);
            && Lines(s) == [first] + Lines(tail)
            && RequestOf(first) == (if line.ok then Some(line.request) else None)
            && Parse(FRESH_CONTEXT, s) == if line.ok then Parse(Context(ExpectHeader, line.request), tail)
                                          else Outcome(Context(ExpectRequestLine, line.request), s, false)
  {
    hide RequestOf, ProcessRequestLine, FindCrlf, IndexOf;
    RequestOfLine(s[..FindCrlf(s)]);
  }

  /** Calling the incremental parser until it stops is the one-shot reference parser. */
  lemma {:induction false} PendingIsReference(s: string)
    ensures Pending(FRESH_CONTEXT, s) == RefRequests(Lines(s))
    decreases |s|
  {
    hide HeaderBlock, RequestOf, ProcessRequestLine, OnLine, FindCrlf, IndexOf;
    var i := FindCrlf(s);
    var o := Parse(FRESH_CONTEXT, s);
    if i < |s| {
      var first, tail := s[..i], s[i+2..];
      FirstLineUnfolds(s);
      var line := ProcessRequestLine(FRESH, first);
      if line.ok {
        HeadersByLines(line.request, tail);
        ReferenceUnfolds(first, Lines(tail), line.request, o);
      }
    }
    if o.ctx.state == GotAll { PendingIsReference(o.rest); }
  }

  // ---- sessions ----

  /** A complete, rejected request line stands first in the buffer, and its method is already recorded. */
  predicate Rejected(c: Context, s: string)
  {
    var i := FindCrlf(s);
    && c.state == ExpectRequestLine && c.request.verb != Invalid
    && i < |s| && !ProcessRequestLine(FRESH, s[..i]).ok && c.request == ProcessRequestLine(FRESH, s[..i]).request
  }

  /** Everything a session can be in: unable to go on only after a rejected request line. */
  predicate SessionInvariant(session: Session)
  {
    session.Serving? ==>
      && (session.ctx.state == ExpectRequestLine ==>
            session.ctx == FRESH_CONTEXT || Rejected(session.ctx, session.buffer))
      && session.ctx.state != GotAll && session.ctx.state != ExpectBody
  }

  /** The requests a session would still hand on from its buffer and the bytes t to come. */
  function Backlog(session: Session, t: string): seq<Request>
  {
    if session.Serving? && Callable(session.ctx) then Pending(session.ctx, session.buffer + t) else []
  }

  lemma {:induction false} ParseFailure(c: Context, s: string)
    requires c == FRESH_CONTEXT || c.state == ExpectHeader
    ensures var o := Parse(c, s);
            && (!o.ok ==> c == FRESH_CONTEXT && o.rest == s && o.ctx.state == ExpectRequestLine
                          && FindCrlf(s) < |s| && !ProcessRequestLine(FRESH, s[..FindCrlf(s)]).ok
                          && o.ctx.request == ProcessRequestLine(FRESH, s[..FindCrlf(s)]).request)
            && (o.Starved() && o.ctx.state == ExpectRequestLine ==> o.ctx == FRESH_CONTEXT)
    decreases |s|
  {
    hide FindCrlf, IndexOf;
    var i := FindCrlf(s);
    if i < |s| {
      var e := OnLine(c, s[..i]);
      if e.Continue? { ParseFailure(e.ctx, s[i+2..]); }
    }
  }

  lemma RejectedLineLeaves(line: string)
    requires !ProcessRequestLine(FRESH, line).ok
    ensures ProcessRequestLine(FRESH, line).request == FRESH || ProcessRequestLine(FRESH, line).request.verb != Invalid
  {
  }

  lemma MessageKeepsInvariant(session: Session, m: string)
    requires SessionInvariant(session)
    ensures SessionInvariant(OnMessage(session, m).session)
  {
    if session.Serving? && Callable(session.ctx) {
      var s := session.buffer + m;
      var o := Parse(session.ctx, s);
      ParseFailure(session.ctx, s);
      if !o.ok {
        RejectedLineLeaves(s[..FindCrlf(s)]);
      }
    }
  }

  lemma {:induction false} ServeKeepsInvariant(ms: seq<string>)
    ensures SessionInvariant(Serve(ms).session)
  {
    if ms != [] {
      ServeKeepsInvariant(ms[..|ms|-1]);
      MessageKeepsInvariant(Serve(ms[..|ms|-1]).session, ms[|ms|-1]);
    }
  }

  /** A session aborts in its next message exactly when the assertion of setMethod fails, and that happens
      exactly when the message before it was rejected with a known method. */
  lemma AbortsExactlyOnAssertion(session: Session, m: string)
    requires SessionInvariant(session) && session.Serving?
    ensures OnMessage(session, m).session.Aborted? <==> HitsMethodAssertion(session.ctx, session.buffer + m)
    ensures OnMessage(session, m).session.Aborted? <==> Rejected(session.ctx, session.buffer)
  {
    var b := session.buffer;
    if Rejected(session.ctx, b) {
      FindCrlfStable(b, m);
      assert (b + m)[..FindCrlf(b)] == b[..FindCrlf(b)];
    }
  }

  lemma {:induction false} RejectedMessage(line: string)
    requires CrlfFree(line) && !ProcessRequestLine(FRESH, line).ok
    ensures var first, ctx := line + "\r\n", Context(ExpectRequestLine, ProcessRequestLine(FRESH, line).request);
            Serve([first]) == Reply(Serving(ctx, first), [])
  {
    hide ProcessRequestLine, FindCrlf, IndexOf;
    var first := line + "\r\n";
    FindCrlfAfterLine(line, "");
    assert line + "\r\n" + "" == first == "" + first;
    var ms := [first];
    assert ms[..0] == [];
    assert first[..|line|] == line;
  }

  /** A line rejected after its method was recorded, and then any message at all: the session aborts. */
  lemma {:induction false} RejectionThenAbort(line: string, m: string)
    requires CrlfFree(line) && !ProcessRequestLine(FRESH, line).ok
    requires ProcessRequestLine(FRESH, line).request.verb != Invalid
    ensures Serve([line + "\r\n", m]) == Reply(Aborted, [])
  {
    RejectedMessage(line);
    hide ProcessRequestLine, Parse;
    var ms := [line + "\r\n", m];
    assert ms[..1] == [line + "\r\n"];
  }

  /** Such a line: a method and a target, and the version missing. */
  lemma GetWithoutVersion(m: string)
    ensures Serve(["GET /" + "\r\n", m]).session.Aborted?
  {
    var line := "GET /";
    assert line[3] == ' ' && line[..3] == "GET" && line[4..] == "/";
    assert IndexOf(line, ' ') == 3 && IndexOf("/", ' ') == 1;
    assert CrlfFree(line);
    RejectionThenAbort(line, m);
  }

  lemma {:induction false} PendingResumes(c: Context, s: string, t: string)
    requires Callable(c)
    ensures var o := Parse(c, s);
            && (o.ctx.state == GotAll ==> Pending(c, s + t) == [o.ctx.request] + Pending(FRESH_CONTEXT, o.rest + t))
            && (o.Starved() ==> Callable(o.ctx) && Pending(c, s + t) == Pending(o.ctx, o.rest + t))
            && (!o.ok ==> Pending(c, s + t) == [])
  {
    ParseResumes(c, s, t);
    var o := Parse(c, s);
    if o.Starved() {
      var o2 := Parse(o.ctx, o.rest + t);
    }
  }

  /** One message: what was pending with the new bytes is what is served now plus what is pending after. */
  lemma MessageConserves(session: Session, m: string, t: string)
    requires SessionInvariant(session)
    ensures var r := OnMessage(session, m);
            Backlog(session, m + t) == r.served + Backlog(r.session, t)
  {
    if session.Serving? && Callable(session.ctx) {
      var s := session.buffer + m;
      assert session.buffer + (m + t) == s + t;
      PendingResumes(session.ctx, s, t);
      ParseFailure(session.ctx, s);
      var o := Parse(session.ctx, s);
      if !o.ok {
        RejectedLineLeaves(s[..FindCrlf(s)]);
        if Callable(o.ctx) { PendingResumes(FRESH_CONTEXT, s, t); }
      }
    }
  }

  /** The requests of a stream, however it will be cut: what has been served, then what the session still holds.
      Nothing is lost, invented or reordered, whatever bytes t come after. */
  lemma {:induction false} FragmentsConserve(ms: seq<string>, t: string)
    ensures RefRequests(Lines(Concat(ms) + t)) == Serve(ms).served + Backlog(Serve(ms).session, t)
  {
    hide Parse, OnMessage, RefRequests, Lines, FindCrlf, Pending;
    if ms == [] {
      assert "" + t == t;
      PendingIsReference(t);
    } else {
      var front, m := ms[..|ms|-1], ms[|ms|-1];
      ServeKeepsInvariant(front);
      FragmentsConserve(front, m + t);
      assert Concat(ms) + t == Concat(front) + (m + t);
      MessageConserves(Serve(front).session, m, t);
    }
  }

  /** Fragmentation independence: for every stream and every way of cutting it into messages, the requests
      handed on are a prefix of what the one-shot parser reads off the whole stream. */
  lemma FragmentationIndependence(ms: seq<string>)
    ensures RefRequests(Lines(Concat(ms))) == Serve(ms).served + Backlog(Serve(ms).session, "")
    ensures Serve(ms).served <= RefRequests(Lines(Concat(ms)))
  {
    FragmentsConserve(ms, "");
    assert Concat(ms) + "" == Concat(ms);
  }

  // ---- one request per message ----

  /** The number of requests complete in a stream. */
  ghost function Complete(ms: seq<string>): nat
  {
    |RefRequests(Lines(Concat(ms)))|
  }

  lemma BacklogServesOne(session: Session, m: string)
    requires SessionInvariant(session)
    ensures |OnMessage(session, m).served| == if |Backlog(session, m)| > 0 then 1 else 0
  {
    if session.Serving? && Callable(session.ctx) {
      var o := Parse(session.ctx, session.buffer + m);
    }
  }

  /** Each message serves one waiting request if there is one, and never a second. */
  lemma OnePerMessage(ms: seq<string>)
    requires ms != []
    ensures |Serve(ms).served| == Min(Complete(ms), |Serve(ms[..|ms|-1]).served| + 1)
  {
    var front, m := ms[..|ms|-1], ms[|ms|-1];
    FragmentsConserve(front, m);
    ServeKeepsInvariant(front);
    BacklogServesOne(Serve(front).session, m);
  }

  function Min(a: nat, b: nat): nat
  {
    if a < b then a else b
  }

  /** The requests complete after the first j messages, and one more for each message since. */
  ghost function Slots(ms: seq<string>, j: nat): nat
    requires j <= |ms|
  {
    Complete(ms[..j]) + (|ms| - j)
  }

  /** No run of last messages completes more requests than it has messages. */
  ghost predicate KeepsUp(ms: seq<string>)
  {
    forall j :: 0 <= j <= |ms| ==> Complete(ms) <= Slots(ms, j)
  }

  lemma SlotsFront(ms: seq<string>, j: nat)
    requires j < |ms|
    ensures Slots(ms, j) == Slots(ms[..|ms|-1], j) + 1
  {
    assert ms[..|ms|-1][..j] == ms[..j];
  }

  lemma {:induction false} ServedIsLeast(ms: seq<string>) returns (least: nat)
    ensures forall j :: 0 <= j <= |ms| ==> |Serve(ms).served| <= Slots(ms, j)
    ensures least <= |ms| && |Serve(ms).served| == Slots(ms, least)
  {
    hide RefRequests, Lines, FindCrlf, OnMessage;
    assert ms[..|ms|] == ms;
    if ms == [] {
      FragmentationIndependence(ms);
      return 0;
    }
    least := ServedIsLeast(ms[..|ms|-1]);
    OnePerMessage(ms);
    forall j | 0 <= j < |ms| ensures |Serve(ms).served| <= Slots(ms, j) {
      SlotsFront(ms, j);
    }
    SlotsFront(ms, least);
    if |Serve(ms).served| == Complete(ms) { least := |ms|; }
  }

  /** Every complete request of the stream has been answered exactly when no run of last messages completes
      more requests than it has messages; otherwise a complete request waits for bytes that may never come. */
  lemma AllServedExactlyWhen(ms: seq<string>)
    ensures Serve(ms).served == RefRequests(Lines(Concat(ms))) <==> KeepsUp(ms)
  {
    var least := ServedIsLeast(ms);
    FragmentationIndependence(ms);
  }

  // ---- headers that end with an empty line, as they should ----

  /** The reference parser of a stricter server: a line without a colon that is not empty ends no headers but is an
      error, at which reading stops. */
  ghost function Strict(lines: seq<string>): seq<Request>
  {
    if lines != [] && RequestOf(lines[0]).Some? && HeaderLines(lines[1..]) < |lines| - 1
       && lines[1 + HeaderLines(lines[1..])] == "" then
      var n, r := HeaderLines(lines[1..]), RequestOf(lines[0]).value;
      HeaderLinesAreHeaders(lines[1..]);
      [r.(headers := HeaderMap(r.headers, lines[1..][..n]))] + Strict(lines[n+2..])
    else []
  }

  /** Behind each of the first k request lines the first line without a colon is empty. */
  ghost predicate EndEmpty(lines: seq<string>, k: nat)
    decreases k
  {
    k > 0 && lines != [] && RequestOf(lines[0]).Some? && HeaderLines(lines[1..]) < |lines| - 1 ==>
      lines[1 + HeaderLines(lines[1..])] == "" && EndEmpty(lines[HeaderLines(lines[1..]) + 2..], k - 1)
  }

  /** The strict reading stops early, and gets as far as k requests exactly when the first k end with an empty line. */
  lemma {:induction false} StrictExactlyWhen(lines: seq<string>, k: nat)
    requires k <= |RefRequests(lines)|
    ensures Strict(lines) <= RefRequests(lines)
    ensures RefRequests(lines)[..k] <= Strict(lines) <==> EndEmpty(lines, k)
    decreases |lines|
  {
    hide RequestOf, HeaderMap;
    if RefRequests(lines) != [] {
      var n := HeaderLines(lines[1..]);
      var rest := lines[n+2..];
      StrictExactlyWhen(rest, if k == 0 then 0 else k - 1);
      assert RefRequests(lines)[1..] == RefRequests(rest);
      if k > 0 { assert RefRequests(lines)[..k] == [RefRequests(lines)[0]] + RefRequests(rest)[..k-1]; }
    }
  }

  /** Every request of a stream as read here is one of the strict reading exactly when all of them end with an empty
      line. */
  lemma StrictAllExactlyWhen(lines: seq<string>)
    ensures RefRequests(lines) == Strict(lines) <==> EndEmpty(lines, |RefRequests(lines)|)
  {
    var ref := RefRequests(lines);
    StrictExactlyWhen(lines, |ref|);
    assert ref[..|ref|] == ref;
  }

  /** What is handed on is what a stricter server would hand on exactly when the requests handed on all end with an
      empty line, however the stream is cut. */
  lemma ServedStrictlyExactlyWhen(ms: seq<string>)
    ensures Serve(ms).served <= Strict(Lines(Concat(ms))) <==> EndEmpty(Lines(Concat(ms)), |Serve(ms).served|)
  {
    hide RefRequests, Strict, EndEmpty, Lines;
    FragmentationIndependence(ms);
    var lines, k := Lines(Concat(ms)), |Serve(ms).served|;
    StrictExactlyWhen(lines, k);
    assert RefRequests(lines)[..k] == Serve(ms).served;
  }

  /** With all headers ended by empty lines, the strict reading is answered in full exactly when the requests do not
      arrive faster than one for each message. */
  lemma AllServedStrictlyExactlyWhen(ms: seq<string>)
    requires EndEmpty(Lines(Concat(ms)), Complete(ms))
    ensures Serve(ms).served == Strict(Lines(Concat(ms))) <==> KeepsUp(ms)
  {
    hide RefRequests, Strict, EndEmpty, Lines;
    StrictAllExactlyWhen(Lines(Concat(ms)));
    AllServedExactlyWhen(ms);
  }

  /** A request without headers, as a client sends it. */
  function Bare(line: string): string
  {
    line + "\r\n" + "\r\n"
  }

  lemma {:induction false} FirstLineGoes(line: string, r: Request, tail: string)
    requires CrlfFree(line) && ProcessRequestLine(FRESH, line) == LineResult(true, r)
    ensures Parse(FRESH_CONTEXT, line + "\r\n" + tail) == Parse(Context(ExpectHeader, r), tail)
  {
    hide ProcessRequestLine, FindCrlf, IndexOf;
    var s := line + "\r\n" + tail;
    FindCrlfAfterLine(line, tail);
    assert s[..|line|] == line && s[|line|+2..] == tail;
  }

  /** Any line without a colon ends the headers, the empty line among them. */
  lemma {:induction false} PlainLineFinishes(r: Request, line: string, t: string)
    requires CrlfFree(line) && ':' !in line
    ensures Parse(Context(ExpectHeader, r), line + "\r\n" + t) == Outcome(Context(GotAll, r), t, true)
  {
    hide FindCrlf;
    var s := line + "\r\n" + t;
    FindCrlfAfterLine(line, t);
    FreeHasNone(line, ':');
    assert s[..|line|] == line && s[|line|+2..] == t;
  }

  lemma EmptyLineFinishes(r: Request, t: string)
    ensures Parse(Context(ExpectHeader, r), "\r\n" + t) == Outcome(Context(GotAll, r), t, true)
  {
    hide Parse;
    PlainLineFinishes(r, "", t);
    assert "" + "\r\n" + t == "\r\n" + t;
  }

  lemma {:induction false} BareRequest(line: string, r: Request, t: string)
    requires CrlfFree(line) && ProcessRequestLine(FRESH, line) == LineResult(true, r)
    ensures Pending(FRESH_CONTEXT, Bare(line) + t) == [r] + Pending(FRESH_CONTEXT, t)
  {
    hide ProcessRequestLine, Parse;
    FirstLineGoes(line, r, "\r\n" + t);
    EmptyLineFinishes(r, t);
    Assoc(line + "\r\n", "\r\n", t);
  }

  lemma OneBareRequest(line: string, r: Request)
    requires CrlfFree(line) && ProcessRequestLine(FRESH, line) == LineResult(true, r)
    ensures Pending(FRESH_CONTEXT, Bare(line)) == [r]
  {
    hide ProcessRequestLine, Parse;
    BareRequest(line, r, "");
    assert Bare(line) + "" == Bare(line);
  }

  lemma TwoBareRequests(line: string, r: Request, b: string)
    requires CrlfFree(line) && ProcessRequestLine(FRESH, line) == LineResult(true, r) && b == Bare(line)
    ensures RefRequests(Lines(b + b)) == [r, r]
  {
    PendingIsReference(b + b);
    BareRequest(line, r, b);
    OneBareRequest(line, r);
  }

  lemma FirstMessage(m: string)
    ensures |Serve([m]).served| <= 1 && Concat([m]) == m
    ensures Complete([m]) > 0 ==> |Serve([m]).served| == 1
  {
    assert [m][..0] == [] && Concat([]) == "" && "" + m == m;
    OnePerMessage([m]);
  }

  /** Two requests pipelined in one message: both are complete, and only the first is served. */
  lemma {:induction false} PipelinedRequestWaits(line: string, r: Request)
    requires CrlfFree(line) && ProcessRequestLine(FRESH, line) == LineResult(true, r)
    ensures var m := Bare(line) + Bare(line);
            Serve([m]).served == [r] && RefRequests(Lines(Concat([m]))) == [r, r]
  {
    hide ProcessRequestLine, Serve, RefRequests, Lines, Concat, Bare;
    var m := Bare(line) + Bare(line);
    TwoBareRequests(line, r, Bare(line));
    FirstMessage(m);
    FragmentationIndependence([m]);
  }

  /** A request line and a line of junk: a complete request here, and no request at all in the strict reading. */
  lemma JunkEndsHeaders(line: string, r: Request, junk: string)
    requires CrlfFree(line) && ProcessRequestLine(FRESH, line) == LineResult(true, r)
    requires CrlfFree(junk) && ':' !in junk && junk != ""
    ensures var m := line + "\r\n" + (junk + "\r\n");
            Serve([m]).served == [r] && Strict(Lines(Concat([m]))) == []
  {
    var tail := junk + "\r\n";
    var m := line + "\r\n" + tail;
    FirstLineGoes(line, r, tail);
    PlainLineFinishes(r, junk, "");
    assert tail + "" == tail;
    LeavesRest(m, r, "");
    JunkLines(line, junk);
    assert Concat([m]) == m by { FirstMessage(m); }
    StrictJunk(line, junk);
  }

  lemma {:induction false} JunkLines(line: string, junk: string)
    requires CrlfFree(line) && CrlfFree(junk)
    ensures Lines(line + "\r\n" + (junk + "\r\n")) == [line, junk]
  {
    hide FindCrlf;
    var tail := junk + "\r\n";
    var s := line + "\r\n" + tail;
    FindCrlfAfterLine(line, tail);
    FindCrlfAfterLine(junk, "");
    assert junk + "\r\n" + "" == tail;
    assert s[..|line|] == line && s[|line|+2..] == tail && tail[..|junk|] == junk && tail[|junk|+2..] == "";
    assert Lines("") == [];
    assert Lines(tail) == [junk];
  }

  lemma StrictJunk(line: string, junk: string)
    requires ':' !in junk && junk != ""
    ensures Strict([line, junk]) == []
  {
    hide RequestOf;
    assert [line, junk][1..] == [junk];
  }

  lemma {:induction false} HeaderLineGoes(r: Request, header: string, tail: string)
    requires CrlfFree(header) && ':' in header
    ensures IndexOf(header, ':') < |header|
    ensures Parse(Context(ExpectHeader, r), header + "\r\n" + tail)
         == Parse(AddHeader(Context(ExpectHeader, r), header), tail)
  {
    hide FindCrlf;
    var s := header + "\r\n" + tail;
    ColonFound(header);
    FindCrlfAfterLine(header, tail);
    assert s[..|header|] == header && s[|header|+2..] == tail;
  }

  /** A request with a header, whatever it says about a length, and a body: the request is handed on without the body,
      and the next request line is looked for in the body. Nothing of it is left behind exactly when it is empty. */
  lemma BodyIsNextRequestLine(line: string, r: Request, header: string, body: string)
    requires CrlfFree(line) && ProcessRequestLine(FRESH, line) == LineResult(true, r)
    requires CrlfFree(header) && ':' in header
    ensures IndexOf(header, ':') < |header|
    ensures var m := line + "\r\n" + (header + "\r\n" + ("\r\n" + body));
            && Serve([m]) == Reply(Serving(FRESH_CONTEXT, body), [AddHeader(Context(ExpectHeader, r), header).request])
            && (Serve([m]).session == Serving(FRESH_CONTEXT, "") <==> body == "")
  {
    hide ProcessRequestLine, IndexOf;
    var tail := header + "\r\n" + ("\r\n" + body);
    var m := line + "\r\n" + tail;
    FirstLineGoes(line, r, tail);
    HeaderLineGoes(r, header, "\r\n" + body);
    EmptyLineFinishes(AddHeader(Context(ExpectHeader, r), header).request, body);
    hide Parse;
    LeavesRest(m, AddHeader(Context(ExpectHeader, r), header).request, body);
  }

  lemma LeavesRest(m: string, r: Request, rest: string)
    requires Parse(FRESH_CONTEXT, m) == Outcome(Context(GotAll, r), rest, true)
    ensures Serve([m]) == Reply(Serving(FRESH_CONTEXT, rest), [r])
  {
    hide Parse;
    var ms := [m];
    assert ms[..0] == [] && "" + m == m;
  }

  /** Such a line. */
  lemma RootRequest() returns (line: string, r: Request)
    ensures line == "GET / HTTP/1.1" && r == Request(Get, "/", "", map[])
    ensures CrlfFree(line) && ProcessRequestLine(FRESH, line) == LineResult(true, r)
  {
    line, r := MethodString(Get) + " " + "/" + "" + " " + VERSION, Request(Get, "/", "", map[]);
    RequestLineAccepted(FRESH, line, Get, "/", "");
    assert line == "GET / HTTP/1.1";
    assert '\r' !in line;
  }

  /** Two such requests in one message, of which one is served; and one whose headers are ended by a line of junk,
      which a stricter server would not have served. */
  lemma RootRequests() returns (line: string, r: Request)
    ensures r == Request(Get, "/", "", map[])
    ensures var m := Bare(line) + Bare(line); Serve([m]).served == [r] && RefRequests(Lines(Concat([m]))) == [r, r]
    ensures var m := line + "\r\n" + ("junk" + "\r\n"); Serve([m]).served == [r] && Strict(Lines(Concat([m]))) == []
  {
    hide ProcessRequestLine, Serve, RefRequests, Strict, Lines, Concat;
    line, r := RootRequest();
    PipelinedRequestWaits(line, r);
    assert '\r' !in "junk" && ':' !in "junk";
    JunkEndsHeaders(line, r, "junk");
  }
}
