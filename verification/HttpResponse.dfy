/** Printing of HTTP responses, and a Content-Length reader (section 3.3.3 of RFC 7230) that takes them apart again. */
module HttpResponse {
  import opened Wrappers
  import opened Text
  import opened Decimal
  import opened ByteBuffer

  type Header = (string, string)

  // ---- the header map, kept in key order as std::map does ----

  predicate Less(a: string, b: string)
  {
    b != "" && (a == "" || a[0] < b[0] || (a[0] == b[0] && Less(a[1..], b[1..])))
  }

  function Put(hs: seq<Header>, key: string, value: string): seq<Header>
  {
    if hs == [] || Less(key, hs[0].0) then [(key, value)] + hs
    else if hs[0].0 == key then [(key, value)] + hs[1..]
    else [hs[0]] + Put(hs[1..], key, value)
  }

  function Find(hs: seq<Header>, key: string): Option<string>
  {
    if hs == [] then None else if hs[0].0 == key then Some(hs[0].1) else Find(hs[1..], key)
  }

  predicate Ordered(hs: seq<Header>)
  {
    forall i, j :: 0 <= i < j < |hs| ==> Less(hs[i].0, hs[j].0)
  }

  lemma {:induction false} LessTotal(a: string, b: string)
    ensures Less(a, b) || a == b || Less(b, a)
    ensures !(Less(a, b) && Less(b, a)) && (a == b ==> !Less(a, b))
  {
    if a != "" && b != "" {
      LessTotal(a[1..], b[1..]);
      if a[0] == b[0] && a[1..] == b[1..] { assert a == [a[0]] + a[1..] == b; }
    }
  }

  lemma {:induction false} LessTransitive(a: string, b: string, c: string)
    requires Less(a, b) && Less(b, c)
    ensures Less(a, c)
  {
    if a != "" && a[0] == b[0] == c[0] { LessTransitive(a[1..], b[1..], c[1..]); }
  }

  /** Put is map assignment, and keeps every key once and in order. */
  lemma {:induction false} PutIsAssignment(hs: seq<Header>, key: string, value: string)
    requires Ordered(hs)
    ensures Ordered(Put(hs, key, value))
    ensures forall k :: Find(Put(hs, key, value), k) == if k == key then Some(value) else Find(hs, k)
    ensures forall h :: h in Put(hs, key, value) ==> h == (key, value) || h in hs
  {
    if hs == [] {
    } else if Less(key, hs[0].0) {
      forall j | 0 <= j < |hs| ensures Less(key, hs[j].0) {
        if j > 0 { LessTransitive(key, hs[0].0, hs[j].0); }
      }
    } else if hs[0].0 != key {
      LessTotal(key, hs[0].0);
      PutIsAssignment(hs[1..], key, value);
      var tail := Put(hs[1..], key, value);
      forall j | 0 <= j < |tail| ensures Less(hs[0].0, tail[j].0) {
        assert tail[j] in tail;
      }
    }
  }

  // ---- printing ----

  datatype Response = Response(code: nat, message: string, close: bool, headers: seq<Header>, body: string)

  /** snprintf into a scratch buffer of 32 bytes keeps at most 31 of them. */
  function Scratch(s: string): string
  {
    if |s| <= 31 then s else s[..31]
  }

  function PrintHeaders(hs: seq<Header>): string
  {
    if hs == [] then "" else PrintHeaders(hs[..|hs|-1]) + HeaderLine(hs[|hs|-1])
  }

  function HeaderLine(h: Header): string
  {
    h.0 + ": " + h.1 + "\r\n"
  }

  const CONTENT_LENGTH := "Content-Length"
  const KEEP_ALIVE := "Connection: Keep-Alive\r\n"

  function Framing(r: Response): string
  {
    if r.close then "Connection: close\r\n"
    else Scratch(CONTENT_LENGTH + ": " + Digits(|r.body|) + "\r\n") + KEEP_ALIVE
  }

  function StatusLine(r: Response): string
  {
    Scratch("HTTP/1.1 " + Digits(r.code) + " ") + r.message + "\r\n"
  }

  function PrintResponse(r: Response): string
  {
    StatusLine(r) + Framing(r) + PrintHeaders(r.headers) + "\r\n" + r.body
  }

  class HttpResponse {
    var headers: seq<Header>
    var statusCode: nat
    var statusMessage: string
    var closeConnection: bool
    var body: string

    constructor (close: bool)
      ensures View() == Response(0, "", close, [], "")
    {
      headers, statusCode, statusMessage, closeConnection, body := [], 0, "", close, "";
    }

    function View(): Response
      reads this
    {
      Response(statusCode, statusMessage, closeConnection, headers, body)
    }

    method AddHeader(key: string, value: string)
      requires Ordered(headers)
      modifies this`headers
      ensures Ordered(headers)
      ensures forall k :: Find(headers, k) == if k == key then Some(value) else Find(old(headers), k)
    {
      PutIsAssignment(headers, key, value);
      headers := Put(headers, key, value);
    }

    method AppendToBuffer(output: Buffer)
      requires output.Valid()
      modifies output, output.data
      ensures output.Valid() && output.Contents() == old(output.Contents()) + PrintResponse(View())
      ensures output.data == old(output.data) || fresh(output.data)
    {
      hide Scratch, Digits, PrintHeaders, Framing;
      ghost var before, top := output.Contents(), StatusLine(View());
      AppendStatus(output);
      AppendFraming(output);
      AppendHeaders(output);
      output.Append("\r\n");
      output.Append(body);
      Assoc(before, top, Framing(View()));
      Assoc(before, top + Framing(View()), PrintHeaders(headers));
      Assoc(before, top + Framing(View()) + PrintHeaders(headers), "\r\n");
      Assoc(before, top + Framing(View()) + PrintHeaders(headers) + "\r\n", body);
    }

    method AppendStatus(output: Buffer)
      requires output.Valid()
      modifies output, output.data
      ensures output.Valid() && output.Contents() == old(output.Contents()) + StatusLine(View())
      ensures output.data == old(output.data) || fresh(output.data)
    {
      hide Scratch, Digits;
      ghost var before := output.Contents();
      var start := Scratch("HTTP/1.1 " + Digits(statusCode) + " ");
      output.Append(start);
      output.Append(statusMessage);
      output.Append("\r\n");
      Assoc(before, start, statusMessage);
      Assoc(before, start + statusMessage, "\r\n");
    }

    method AppendFraming(output: Buffer)
      requires output.Valid()
      modifies output, output.data
      ensures output.Valid() && output.Contents() == old(output.Contents()) + Framing(View())
      ensures output.data == old(output.data) || fresh(output.data)
    {
      hide Scratch, Digits;
      ghost var before := output.Contents();
      if closeConnection {
        output.Append("Connection: close\r\n");
      } else {
        var length := Scratch(CONTENT_LENGTH + ": " + Digits(|body|) + "\r\n");
        output.Append(length);
        output.Append(KEEP_ALIVE);
        Assoc(before, length, KEEP_ALIVE);
      }
    }

    method AppendHeaders(output: Buffer)
      requires output.Valid()
      modifies output, output.data
      ensures output.Valid() && output.Contents() == old(output.Contents()) + PrintHeaders(headers)
      ensures output.data == old(output.data) || fresh(output.data)
    {
      hide HeaderLine;
      ghost var before := output.Contents();
      var i := 0;
      while i < |headers|
        invariant 0 <= i <= |headers| && output.Valid()
        invariant output.data == old(output.data) || fresh(output.data)
        invariant output.Contents() == before + PrintHeaders(headers[..i])
      {
        AppendHeaderLine(output, headers[i]);
        assert headers[..i + 1][..i] == headers[..i];
        Assoc(before, PrintHeaders(headers[..i]), HeaderLine(headers[i]));
        i := i + 1;
      }
      assert headers[..i] == headers;
    }

    static method AppendHeaderLine(output: Buffer, h: Header)
      requires output.Valid()
      modifies output, output.data
      ensures output.Valid() && output.Contents() == old(output.Contents()) + HeaderLine(h)
      ensures output.data == old(output.data) || fresh(output.data)
    {
      ghost var before := output.Contents();
      output.Append(h.0);
      output.Append(": ");
      output.Append(h.1);
      output.Append("\r\n");
      Assoc(before, h.0, ": ");
      Assoc(before, h.0 + ": ", h.1);
      Assoc(before, h.0 + ": " + h.1, "\r\n");
    }
  }

  // ---- the reader ----

  function LowerChar(c: char): char
  {
    if 'A' <= c <= 'Z' then c + ('a' - 'A') else c
  }

  function Lower(s: string): string
  {
    seq(|s|, i requires 0 <= i < |s| => LowerChar(s[i]))
  }

  datatype Block = Block(headers: seq<Header>, rest: string)

  /** Header lines up to the empty line; values without surrounding white space. */
  function ReadBlock(s: string): Option<Block>
    decreases |s|
  {
    var i := FindCrlf(s);
    if i == |s| then None
    else if i == 0 then Some(Block([], s[2..]))
    else
      var line := s[..i];
      var colon := IndexOf(line, ':');
      var more := ReadBlock(s[i+2..]);
      if colon == |line| || more.None? then None
      else Some(Block([(line[..colon], Trim(line[colon+1..]))] + more.value.headers, more.value.rest))
  }

  /** The values of all fields with this name, in any case of letters. */
  function ValuesOf(hs: seq<Header>, name: string): seq<string>
  {
    if hs == [] then []
    else (if Lower(hs[0].0) == name then [hs[0].1] else []) + ValuesOf(hs[1..], name)
  }

  datatype Received = Received(code: nat, message: string, headers: seq<Header>, body: string, rest: string)

  /** Responses that end with their header block whatever it says. */
  predicate Bodiless(code: nat)
  {
    100 <= code < 200 || code == 204 || code == 304
  }

  /** The body behind a header block; ended tells whether the stream ends here. A Transfer-Encoding, several lengths or
      an unreadable length are refused; without a length the body is everything up to the end of the stream. */
  function ReadBody(code: nat, message: string, hs: seq<Header>, rest: string, ended: bool): Option<Received>
  {
    var lengths := ValuesOf(hs, "content-length");
    if Bodiless(code) then Some(Received(code, message, hs, "", rest))
    else if ValuesOf(hs, "transfer-encoding") != [] || |lengths| > 1 then None
    else if lengths == [] then if ended then Some(Received(code, message, hs, rest, "")) else None
    else
      var length := ReadNat(lengths[0]);
      if length.None? || length.value > |rest| then None
      else Some(Received(code, message, hs, rest[..length.value], rest[length.value..]))
  }

  /** One response off the front of the stream. */
  function ReadResponse(s: string, ended: bool): Option<Received>
  {
    var i := FindCrlf(s);
    if i == |s| || !("HTTP/1.1 " <= s[..i]) then None
    else
      var status := s[..i][9..];
      var space := IndexOf(status, ' ');
      var code := ReadNat(status[..space]);
      var block := ReadBlock(s[i+2..]);
      if space == |status| || code.None? || block.None? then None
      else ReadBody(code.value, status[space+1..], block.value.headers, block.value.rest, ended)
  }

  // ---- what can be printed safely, and comes back ----

  predicate SafeHeader(h: Header)
  {
    && CrlfFree(h.0) && ':' !in h.0 && CrlfFree(h.1)
    && Lower(h.0) != "content-length" && Lower(h.0) != "transfer-encoding"
  }

  /** A response whose texts hold no CRLF and whose headers leave the framing alone; the code is an int. */
  predicate Safe(r: Response)
  {
    && CrlfFree(r.message) && r.code < 0x8000_0000
    && forall h :: h in r.headers ==> SafeHeader(h)
  }

  function Stripped(hs: seq<Header>): seq<Header>
  {
    if hs == [] then [] else [(hs[0].0, Trim(hs[0].1))] + Stripped(hs[1..])
  }

  function FramingHeaders(r: Response): seq<Header>
  {
    if r.close then [("Connection", "close")] else [(CONTENT_LENGTH, Digits(|r.body|)), ("Connection", "Keep-Alive")]
  }

  /** What a reader is meant to make of r when rest follows it. */
  function Delivered(r: Response, rest: string): Received
  {
    Received(r.code, r.message, FramingHeaders(r) + Stripped(r.headers), r.body, rest)
  }

  lemma HeaderLineHasNoCrlf(h: Header)
    requires CrlfFree(h.0) && CrlfFree(h.1) && ':' !in h.0
    ensures CrlfFree(h.0 + ": " + h.1) && IndexOf(h.0 + ": " + h.1, ':') == |h.0|
  {
    var line := h.0 + ": " + h.1;
    forall k | 0 <= k < |line| ensures !CrlfAt(line, k) {
      assert k < |h.0| - 1 ==> !CrlfAt(h.0, k);
      assert k >= |h.0| + 2 ==> !CrlfAt(h.1, k - |h.0| - 2);
    }
    assert line[|h.0|] == ':';
    assert forall k :: 0 <= k < |h.0| ==> line[k] == h.0[k];
  }

  /** One more line in front of a block. */
  lemma BlockFront(h: Header, s: string)
    requires CrlfFree(h.0) && CrlfFree(h.1) && ':' !in h.0 && ReadBlock(s).Some?
    ensures ReadBlock(HeaderLine(h) + s)
         == Some(Block([(h.0, Trim(h.1))] + ReadBlock(s).value.headers, ReadBlock(s).value.rest))
  {
    hide FindCrlf, IndexOf, Trim;
    var line, all := h.0 + ": " + h.1, HeaderLine(h) + s;
    HeaderLineHasNoCrlf(h);
    FindCrlfAfterLine(line, s);
    assert all == line + "\r\n" + s;
    assert all[..|line|] == line && all[|line|+2..] == s;
    assert line[..|h.0|] == h.0;
    TrimLeadingSpace(h.1);
    assert line[|h.0|+1..] == " " + h.1;
  }

  lemma TrimLeadingSpace(s: string)
    ensures Trim(" " + s) == Trim(s)
  {
    assert (" " + s)[1..] == s;
  }

  lemma PrintHeadersFront(h: Header, hs: seq<Header>)
    ensures PrintHeaders([h] + hs) == HeaderLine(h) + PrintHeaders(hs)
  {
    if hs == [] {
      assert ([h] + hs)[..0] == [];
    } else {
      assert ([h] + hs)[..|hs|] == [h] + hs[..|hs|-1];
      PrintHeadersFront(h, hs[..|hs|-1]);
    }
  }

  lemma EmptyBlock(rest: string)
    ensures ReadBlock("\r\n" + rest) == Some(Block([], rest))
  {
    FindCrlfAfterLine("", rest);
    assert "" + "\r\n" + rest == "\r\n" + rest;
    assert ("\r\n" + rest)[2..] == rest;
  }

  lemma {:induction false} BlockReads(hs: seq<Header>, rest: string)
    requires forall h :: h in hs ==> SafeHeader(h)
    ensures ReadBlock(PrintHeaders(hs) + "\r\n" + rest) == Some(Block(Stripped(hs), rest))
  {
    hide SafeHeader, ReadBlock, HeaderLine, FindCrlf, IndexOf, Trim;
    if hs == [] {
      EmptyBlock(rest);
      assert PrintHeaders(hs) + "\r\n" + rest == "\r\n" + rest;
    } else {
      var more := PrintHeaders(hs[1..]);
      BlockReads(hs[1..], rest);
      assert [hs[0]] + hs[1..] == hs;
      PrintHeadersFront(hs[0], hs[1..]);
      Assoc(HeaderLine(hs[0]), more, "\r\n");
      Assoc(HeaderLine(hs[0]), more + "\r\n", rest);
      SafeParts(hs[0]);
      BlockFront(hs[0], more + "\r\n" + rest);
    }
  }

  lemma SafeParts(h: Header)
    requires SafeHeader(h)
    ensures CrlfFree(h.0) && CrlfFree(h.1) && ':' !in h.0
    ensures Lower(h.0) != "content-length" && Lower(h.0) != "transfer-encoding"
  {
  }

  lemma {:induction false} SafeHeadersDoNotFrame(hs: seq<Header>)
    requires forall h :: h in hs ==> SafeHeader(h)
    ensures ValuesOf(Stripped(hs), "content-length") == [] && ValuesOf(Stripped(hs), "transfer-encoding") == []
  {
    hide Lower, Trim;
    if hs != [] {
      SafeParts(hs[0]);
      SafeHeadersDoNotFrame(hs[1..]);
      assert Stripped(hs)[1..] == Stripped(hs[1..]);
    }
  }

  lemma DigitsPlain(n: nat)
    ensures CrlfFree(Digits(n)) && Trim(Digits(n)) == Digits(n) && ' ' !in Digits(n)
  {
    DigitsRead(n);
    var d := Digits(n);
    assert IsDigit(d[0]) && IsDigit(d[|d|-1]);
  }

  /** The scratch buffer holds the length line exactly for bodies below 10^13 bytes. */
  lemma LengthLineFits(n: nat)
    ensures |CONTENT_LENGTH + ": " + Digits(n) + "\r\n"| <= 31 <==> n < Pow10(13)
  {
    DigitCount(n, 13);
  }

  lemma BlockOfThree(length: Header, alive: Header, tail: string)
    requires CrlfFree(length.0) && CrlfFree(length.1) && ':' !in length.0
    requires CrlfFree(alive.0) && CrlfFree(alive.1) && ':' !in alive.0 && ReadBlock(tail).Some?
    ensures ReadBlock(HeaderLine(length) + HeaderLine(alive) + tail)
         == Some(Block([(length.0, Trim(length.1)), (alive.0, Trim(alive.1))] + ReadBlock(tail).value.headers,
                       ReadBlock(tail).value.rest))
  {
    hide ReadBlock, Trim, HeaderLine;
    BlockFront(alive, tail);
    BlockFront(length, HeaderLine(alive) + tail);
    Assoc(HeaderLine(length), HeaderLine(alive), tail);
    var l, a, hs := (length.0, Trim(length.1)), (alive.0, Trim(alive.1)), ReadBlock(tail).value.headers;
    assert [l] + ([a] + hs) == [l, a] + hs;
  }

  lemma FramingLines(r: Response)
    requires !r.close && |r.body| < Pow10(13)
    ensures Framing(r) == HeaderLine((CONTENT_LENGTH, Digits(|r.body|))) + HeaderLine(("Connection", "Keep-Alive"))
  {
    hide Digits;
    LengthLineFits(|r.body|);
    KeepAlivePlain();
  }

  lemma Reassociate(a: string, b: string, c: string, d: string, e: string)
    ensures a + b + c + d + e == a + (b + c + (d + e))
  {
  }

  /** The block a reader sees behind the status line when the length line was printed whole. */
  lemma FramedBlock(r: Response, rest: string)
    requires Safe(r) && !r.close && |r.body| < Pow10(13)
    ensures ReadBlock(Framing(r) + PrintHeaders(r.headers) + "\r\n" + r.body + rest)
         == Some(Block(Delivered(r, rest).headers, r.body + rest))
  {
    hide Trim, SafeHeader, IsSpace, ReadBlock, Framing, HeaderLine, PrintHeaders, Digits, Stripped;
    var tail := PrintHeaders(r.headers) + "\r\n" + (r.body + rest);
    DigitsPlain(|r.body|);
    KeepAlivePlain();
    FramingLines(r);
    BlockReads(r.headers, r.body + rest);
    BlockOfThree((CONTENT_LENGTH, Digits(|r.body|)), ("Connection", "Keep-Alive"), tail);
    Reassociate(Framing(r), PrintHeaders(r.headers), "\r\n", r.body, rest);
  }

  lemma KeepAlivePlain()
    ensures CrlfFree(CONTENT_LENGTH) && ':' !in CONTENT_LENGTH
    ensures CrlfFree("Connection") && ':' !in "Connection"
    ensures CrlfFree("Keep-Alive") && Trim("Keep-Alive") == "Keep-Alive"
    ensures HeaderLine(("Connection", "Keep-Alive")) == KEEP_ALIVE
  {
    TrimStrips("Keep-Alive", 0, 10);
  }

  // ---- the status line ----

  lemma StatusSplits(version: string, d: string, message: string, t: string)
    requires |version| == 9 && CrlfFree(version) && CrlfFree(message) && '\r' !in d && '\r' !in version && ' ' !in d
    ensures var s := version + d + " " + message + "\r\n" + t;
            var i := FindCrlf(s);
            && i < |s| && version <= s[..i] && s[i+2..] == t
            && s[..i][9..] == d + " " + message && IndexOf(d + " " + message, ' ') == |d|
            && (d + " " + message)[..|d|] == d && (d + " " + message)[|d|+1..] == message
  {
    var line := version + d + " " + message;
    var n := |version + d + " "|;
    forall k | 0 <= k < |line| ensures !CrlfAt(line, k) {
      assert k >= n ==> !CrlfAt(message, k - n) && line[k] == message[k - n];
      assert k < n ==> line[k] == (version + d + " ")[k];
    }
    FindCrlfAfterLine(line, t);
    var s := line + "\r\n" + t;
    assert s[..|line|] == line && s[|line|+2..] == t;
    assert line[9..] == d + " " + message;
    assert (d + " " + message)[|d|] == ' ';
  }

  lemma StatusFits(r: Response)
    requires r.code < 0x8000_0000
    ensures StatusLine(r) == "HTTP/1.1 " + Digits(r.code) + " " + r.message + "\r\n"
    ensures '\r' !in Digits(r.code) && ' ' !in Digits(r.code)
  {
    hide Digits;
    assert Pow10(5) == 100_000;
    assert Pow10(10) == 10_000_000_000;
    DigitCount(r.code, 10);
    DigitsRead(r.code);
  }

  lemma VersionPlain()
    ensures |"HTTP/1.1 "| == 9 && CrlfFree("HTTP/1.1 ") && '\r' !in "HTTP/1.1 "
  {
  }

  /** What a reader makes of the stream once the block behind the status line is known. */
  function Assemble(code: nat, message: string, block: Option<Block>, ended: bool): Option<Received>
  {
    if block.None? then None else ReadBody(code, message, block.value.headers, block.value.rest, ended)
  }

  lemma {:induction false} StatusLineReads(d: string, code: nat, message: string, t: string, ended: bool)
    requires ReadNat(d) == Some(code) && '\r' !in d && ' ' !in d && CrlfFree(message)
    ensures ReadResponse("HTTP/1.1 " + d + " " + message + "\r\n" + t, ended)
         == Assemble(code, message, ReadBlock(t), ended)
  {
    hide FindCrlf, IndexOf, ReadBlock, ReadNat, ValuesOf, CrlfFree, ReadBody;
    VersionPlain();
    StatusSplits("HTTP/1.1 ", d, message, t);
  }

  lemma StatusReads(r: Response, t: string, ended: bool)
    requires Safe(r)
    ensures ReadResponse(StatusLine(r) + t, ended) == Assemble(r.code, r.message, ReadBlock(t), ended)
  {
    hide ReadBlock, ReadNat, Digits, ReadResponse, Assemble;
    StatusFits(r);
    DigitsRead(r.code);
    StatusLineReads(Digits(r.code), r.code, r.message, t, ended);
  }

  lemma FramingValues(v: string, hs: seq<Header>)
    requires forall h :: h in hs ==> SafeHeader(h)
    ensures ValuesOf([(CONTENT_LENGTH, v), ("Connection", "Keep-Alive")] + Stripped(hs), "content-length") == [v]
    ensures ValuesOf([(CONTENT_LENGTH, v), ("Connection", "Keep-Alive")] + Stripped(hs), "transfer-encoding") == []
    ensures ValuesOf([(CONTENT_LENGTH, v)] + Stripped(hs), "content-length") == [v]
    ensures ValuesOf([(CONTENT_LENGTH, v)] + Stripped(hs), "transfer-encoding") == []
    ensures ValuesOf([("Connection", "close")] + Stripped(hs), "content-length") == []
    ensures ValuesOf([("Connection", "close")] + Stripped(hs), "transfer-encoding") == []
  {
    hide Stripped, SafeHeader, Lower;
    var alive := ("Connection", "Keep-Alive");
    SafeHeadersDoNotFrame(hs);
    FramingNames();
    assert ([(CONTENT_LENGTH, v)] + Stripped(hs))[1..] == Stripped(hs);
    assert ([alive] + Stripped(hs))[1..] == Stripped(hs);
    assert ([("Connection", "close")] + Stripped(hs))[1..] == Stripped(hs);
    assert ([(CONTENT_LENGTH, v), alive] + Stripped(hs))[1..] == [alive] + Stripped(hs);
  }

  lemma FramingNames()
    ensures Lower(CONTENT_LENGTH) == "content-length" != "transfer-encoding"
    ensures Lower("Connection") != "content-length" && Lower("Connection") != "transfer-encoding"
  {
    assert |Lower("Connection")| == 10;
  }

  // ---- a length line that does not fit ----

  lemma {:induction false} TrimLeftKeeps(s: string, c: char)
    requires c in s && !IsSpace(c)
    ensures c in TrimLeft(s)
  {
    if IsSpace(s[0]) { TrimLeftKeeps(s[1..], c); }
  }

  lemma {:induction false} TrimRightKeeps(s: string, c: char)
    requires c in s && !IsSpace(c)
    ensures c in TrimRight(s)
  {
    if IsSpace(s[|s|-1]) { TrimRightKeeps(s[..|s|-1], c); }
  }

  lemma ScratchCuts(p: string, d: string)
    requires |p| == 16 && |d| >= 14
    ensures Scratch(p + d + "\r\n") == p + (d + "\r\n")[..15]
  {
    assert p + d + "\r\n" == p + (d + "\r\n");
  }

  lemma CutIsPlain(d: string, tail: string)
    requires |d| >= 14 && (forall k :: 0 <= k < |d| ==> IsDigit(d[k]))
    requires tail != "" && tail[0] == 'C' && '\r' !in tail
    ensures var v := (d + "\r\n")[..15] + tail;
            CrlfFree(v) && 'C' in v
  {
    var v := (d + "\r\n")[..15] + tail;
    assert v[15] == 'C';
    assert forall k :: 0 <= k < 14 ==> v[k] == d[k];
    assert forall k :: 15 <= k < |v| ==> v[k] == tail[k - 15];
  }

  lemma SpilledValue(d: string) returns (v: string)
    requires |d| >= 14 && (forall k :: 0 <= k < |d| ==> IsDigit(d[k]))
    ensures Scratch(CONTENT_LENGTH + ": " + d + "\r\n") + KEEP_ALIVE == HeaderLine((CONTENT_LENGTH, v))
    ensures CrlfFree(v) && ReadNat(Trim(v)) == None
  {
    hide Trim, Scratch, CrlfFree, ReadNat;
    var p, cut, tail := CONTENT_LENGTH + ": ", (d + "\r\n")[..15], "Connection: Keep-Alive";
    v := cut + tail;
    ScratchCuts(p, d);
    CutIsPlain(d, tail);
    KeepsTheC(v);
    assert KEEP_ALIVE == tail + "\r\n";
    Assoc(p, cut, tail);
    Assoc(p + cut, tail, "\r\n");
  }

  lemma KeepsTheC(v: string)
    requires 'C' in v
    ensures ReadNat(Trim(v)) == None
  {
    TrimLeftKeeps(v, 'C');
    TrimRightKeeps(TrimLeft(v), 'C');
    var k :| 0 <= k < |Trim(v)| && Trim(v)[k] == 'C';
    NonDigitUnreadable(Trim(v), k, 10);
  }

  lemma SpilledBlock(r: Response, rest: string) returns (v: string)
    requires Safe(r) && !r.close && |r.body| >= Pow10(13)
    ensures ReadBlock(Framing(r) + PrintHeaders(r.headers) + "\r\n" + r.body + rest)
         == Some(Block([(CONTENT_LENGTH, v)] + Stripped(r.headers), r.body + rest))
    ensures ReadNat(v) == None
  {
    hide Trim, SafeHeader, ReadBlock, HeaderLine, PrintHeaders, Digits, Stripped, Scratch, ReadNat;
    var tail := PrintHeaders(r.headers) + "\r\n" + (r.body + rest);
    DigitCount(|r.body|, 13);
    DigitsRead(|r.body|);
    var raw := SpilledValue(Digits(|r.body|));
    KeepAlivePlain();
    BlockReads(r.headers, r.body + rest);
    BlockFront((CONTENT_LENGTH, raw), tail);
    Reassociate(Framing(r), PrintHeaders(r.headers), "\r\n", r.body, rest);
    v := Trim(raw);
  }

  // ---- the stream of responses ----

  lemma BehindStatus(r: Response, rest: string)
    ensures PrintResponse(r) + rest == StatusLine(r) + (Framing(r) + PrintHeaders(r.headers) + "\r\n" + r.body + rest)
  {
    hide StatusLine, Framing, PrintHeaders;
    var a, b, c, d := StatusLine(r), Framing(r), PrintHeaders(r.headers), r.body;
    Assoc(a, b, c);
    Assoc(a, b + c, "\r\n");
    Assoc(a, b + c + "\r\n", d);
    Assoc(a, b + c + "\r\n" + d, rest);
  }

  lemma DeliveredWhole(r: Response, rest: string, ended: bool)
    requires Safe(r) && !r.close
    ensures Assemble(r.code, r.message, Some(Block(Delivered(r, rest).headers, r.body + rest)), ended) ==
              if Bodiless(r.code) then Some(Delivered(r, rest).(body := "", rest := r.body + rest))
              else Some(Delivered(r, rest))
  {
    hide ReadNat, Digits, ValuesOf, Stripped, SafeHeader;
    FramingValues(Digits(|r.body|), r.headers);
    DigitsRead(|r.body|);
    assert (r.body + rest)[..|r.body|] == r.body && (r.body + rest)[|r.body|..] == rest;
  }

  /** A reader recovers status, headers and body of a keep-alive response, and finds the next one, exactly when the body
      is shorter than 10^13 bytes, and empty for a code that allows none. From 10^13 bytes on the length line is cut off
      and runs into the next one. */
  lemma ReadsBackExactlyWhen(r: Response, rest: string, ended: bool)
    requires Safe(r) && !r.close
    ensures ReadResponse(PrintResponse(r) + rest, ended) == Some(Delivered(r, rest))
            <==> |r.body| < Pow10(13) && (Bodiless(r.code) ==> r.body == "")
    ensures |r.body| >= Pow10(13) && !Bodiless(r.code) ==> ReadResponse(PrintResponse(r) + rest, ended) == None
  {
    hide ReadNat, Digits, ValuesOf, Stripped, SafeHeader, ReadBlock, PrintResponse, StatusLine, Framing, ReadResponse;
    var t := Framing(r) + PrintHeaders(r.headers) + "\r\n" + r.body + rest;
    BehindStatus(r, rest);
    StatusReads(r, t, ended);
    if |r.body| < Pow10(13) {
      FramedBlock(r, rest);
      DeliveredWhole(r, rest, ended);
      assert "" + rest == rest;
    } else {
      TenIsPositive(13);
      var v := SpilledBlock(r, rest);
      FramingValues(v, r.headers);
    }
  }

  lemma TenIsPositive(k: nat)
    ensures Pow10(k) > 0
  {
  }

  lemma ClosingBlock(r: Response)
    requires Safe(r) && r.close
    ensures ReadBlock(Framing(r) + PrintHeaders(r.headers) + "\r\n" + r.body)
         == Some(Block([("Connection", "close")] + Stripped(r.headers), r.body))
  {
    hide Trim, SafeHeader, IsSpace, ReadBlock, PrintHeaders, Stripped;
    var tail := PrintHeaders(r.headers) + "\r\n" + r.body;
    ClosePlain();
    BlockReads(r.headers, r.body);
    BlockFront(("Connection", "close"), tail);
    Assoc(Framing(r), PrintHeaders(r.headers), "\r\n");
    Assoc(Framing(r), PrintHeaders(r.headers) + "\r\n", r.body);
  }

  lemma ClosePlain()
    ensures CrlfFree("Connection") && ':' !in "Connection" && CrlfFree("close") && Trim("close") == "close"
    ensures HeaderLine(("Connection", "close")) == "Connection: close\r\n"
  {
    TrimStrips("close", 0, 5);
  }

  /** A closing response has no length: a reader recovers it, whatever the size of the body, exactly when the stream
      ends behind it, or, for a code that allows no body, when there is none. */
  lemma ClosingReadsBackExactlyWhen(r: Response, ended: bool)
    requires Safe(r) && r.close
    ensures ReadResponse(PrintResponse(r), ended) == Some(Delivered(r, ""))
            <==> if Bodiless(r.code) then r.body == "" else ended
  {
    hide ReadNat, ValuesOf, Stripped, SafeHeader, ReadBlock, PrintResponse, StatusLine, Framing, ReadResponse;
    var t := Framing(r) + PrintHeaders(r.headers) + "\r\n" + r.body;
    BehindStatus(r, "");
    assert PrintResponse(r) + "" == PrintResponse(r) && t + "" == t;
    StatusReads(r, t, ended);
    ClosingBlock(r);
    FramingValues("", r.headers);
  }

  function PrintAll(rs: seq<Response>): string
  {
    if rs == [] then "" else PrintResponse(rs[0]) + PrintAll(rs[1..])
  }

  /** Reads n responses off a stream. */
  function ReadAll(s: string, ended: bool, n: nat): Option<seq<Received>>
    decreases n
  {
    if n == 0 then Some([])
    else
      var first := ReadResponse(s, ended);
      if first.None? then None
      else
        var more := ReadAll(first.value.rest, ended, n - 1);
        if more.None? then None else Some([first.value.(rest := "")] + more.value)
  }

  function DeliveredAll(rs: seq<Response>): seq<Received>
  {
    if rs == [] then [] else [Delivered(rs[0], "")] + DeliveredAll(rs[1..])
  }

  /** A response that a reader can take whole. */
  predicate Printable(r: Response)
  {
    && Safe(r) && (Bodiless(r.code) ==> r.body == "")
    && (!r.close ==> |r.body| < Pow10(13))
  }

  /** Keep-alive responses printed back to back are read back one by one, whether the stream ends or not: body bytes are
      never taken for a header, nor the other way round. */
  lemma {:induction false} BackToBack(rs: seq<Response>, ended: bool)
    requires forall r :: r in rs ==> Printable(r) && !r.close
    ensures ReadAll(PrintAll(rs), ended, |rs|) == Some(DeliveredAll(rs))
  {
    hide PrintResponse, ReadResponse, Safe;
    if rs != [] {
      assert Printable(rs[0]);
      ReadsBackExactlyWhen(rs[0], PrintAll(rs[1..]), ended);
      BackToBack(rs[1..], ended);
    }
  }

  // ---- streams cut short ----

  /** One header line in front of what is read behind it. */
  function WithLine(line: string, more: Option<Block>): Option<Block>
  {
    var colon := IndexOf(line, ':');
    if colon == |line| || more.None? then None
    else Some(Block([(line[..colon], Trim(line[colon+1..]))] + more.value.headers, more.value.rest))
  }

  lemma {:induction false} BlockByLine(s: string)
    ensures var i := FindCrlf(s);
            ReadBlock(s) == if i == |s| then None
                            else if i == 0 then Some(Block([], s[2..]))
                            else WithLine(s[..i], ReadBlock(s[i+2..]))
  {
    hide FindCrlf, IndexOf, Trim;
  }

  /** A header block that is complete stays what it is when more bytes follow. */
  lemma {:induction false} BlockExtends(s: string, t: string)
    requires ReadBlock(s).Some?
    ensures ReadBlock(s + t) == Some(ReadBlock(s).value.(rest := ReadBlock(s).value.rest + t))
    decreases |s|
  {
    hide FindCrlf, IndexOf, Trim, ReadBlock;
    var i := FindCrlf(s);
    BlockByLine(s);
    BlockByLine(s + t);
    FindCrlfStable(s, t);
    assert (s + t)[..i] == s[..i] && (s + t)[i+2..] == s[i+2..] + t;
    if i > 0 {
      BlockExtends(s[i+2..], t);
    }
  }

  lemma BodyExtends(code: nat, message: string, hs: seq<Header>, rest: string, t: string, ended: bool)
    requires ReadBody(code, message, hs, rest, false).Some?
    ensures var r := ReadBody(code, message, hs, rest, false).value;
            ReadBody(code, message, hs, rest + t, ended) == Some(r.(rest := r.rest + t))
  {
    hide ReadNat, ValuesOf;
    var lengths := ValuesOf(hs, "content-length");
    if !Bodiless(code) {
      var length := ReadNat(lengths[0]).value;
      assert (rest + t)[..length] == rest[..length] && (rest + t)[length..] == rest[length..] + t;
    }
  }

  /** So does a response that is complete without the end of the stream. */
  lemma {:induction false} ResponseExtends(s: string, t: string, ended: bool)
    requires ReadResponse(s, false).Some?
    ensures var r := ReadResponse(s, false).value;
            ReadResponse(s + t, ended) == Some(r.(rest := r.rest + t))
  {
    hide FindCrlf, IndexOf, ReadBlock, ReadNat, ReadBody;
    var i := FindCrlf(s);
    FindCrlfStable(s, t);
    assert (s + t)[..i] == s[..i] && (s + t)[i+2..] == s[i+2..] + t;
    BlockExtends(s[i+2..], t);
    var status, block := s[..i][9..], ReadBlock(s[i+2..]).value;
    var space := IndexOf(status, ' ');
    BodyExtends(ReadNat(status[..space]).value, status[space+1..], block.headers, block.rest, t, ended);
  }

  /** What n responses leave of the stream. */
  function Unread(s: string, ended: bool, n: nat): string
    requires ReadAll(s, ended, n).Some?
    decreases n
  {
    if n == 0 then s else Unread(ReadResponse(s, ended).value.rest, ended, n - 1)
  }

  lemma {:induction false} AllExtend(s: string, t: string, ended: bool, n: nat)
    requires ReadAll(s, false, n).Some?
    ensures ReadAll(s + t, ended, n) == ReadAll(s, false, n)
    ensures Unread(s + t, ended, n) == Unread(s, false, n) + t
    decreases n
  {
    hide ReadResponse;
    if n > 0 {
      ResponseExtends(s, t, ended);
      AllExtend(ReadResponse(s, false).value.rest, t, ended, n - 1);
    }
  }

  lemma NothingToRead(ended: bool)
    ensures ReadResponse("", ended) == None
  {
  }

  // ---- streams of printed texts, of which the last may end the stream ----

  /** A text on the stream, what a reader is to make of it, and whether it counts on the end of the stream. */
  datatype Item = Item(text: string, received: Received, closes: bool)

  /** The reader gets from the text what it is meant to: whatever follows, or at the end of the stream. */
  ghost predicate Reads(i: Item)
  {
    && i.received.rest == ""
    && (!i.closes ==> forall rest, ended :: ReadResponse(i.text + rest, ended) == Some(i.received.(rest := rest)))
    && (i.closes ==> ReadResponse(i.text, true) == Some(i.received))
  }

  function Texts(items: seq<Item>): string
  {
    if items == [] then "" else items[0].text + Texts(items[1..])
  }

  function Receipts(items: seq<Item>): seq<Received>
  {
    if items == [] then [] else [items[0].received] + Receipts(items[1..])
  }

  /** Only the last text may count on the end of the stream. */
  predicate LastMayClose(items: seq<Item>)
  {
    forall k :: 0 <= k < |items| - 1 ==> !items[k].closes
  }

  predicate CountsOnEnd(items: seq<Item>)
  {
    items != [] && items[|items|-1].closes
  }

  /** A whole stream: all its texts are read, nothing is left, and there is nothing beyond them. */
  lemma {:induction false} WholeStream(items: seq<Item>, ended: bool)
    requires (forall i :: i in items ==> Reads(i)) && LastMayClose(items) && (CountsOnEnd(items) ==> ended)
    ensures ReadAll(Texts(items), ended, |items|) == Some(Receipts(items))
    ensures Unread(Texts(items), ended, |items|) == ""
    decreases |items|
  {
    hide ReadResponse;
    if items != [] {
      assert Reads(items[0]);
      WholeStream(items[1..], ended);
      if items[0].closes {
        assert |items| == 1 && Texts(items[1..]) == "";
        assert items[0].text + "" == items[0].text;
      }
    }
  }

  lemma {:induction false} NoneBeyond(items: seq<Item>, ended: bool, n: nat)
    requires (forall i :: i in items ==> Reads(i)) && LastMayClose(items) && (CountsOnEnd(items) ==> ended)
    requires n > |items|
    ensures ReadAll(Texts(items), ended, n) == None
    decreases |items|
  {
    hide ReadResponse;
    if items == [] {
      NothingToRead(ended);
    } else {
      assert Reads(items[0]);
      NoneBeyond(items[1..], ended, n - 1);
      if items[0].closes {
        assert |items| == 1 && Texts(items[1..]) == "";
        assert items[0].text + "" == items[0].text;
      }
    }
  }

  /** From the first part of such a stream a reader gets n responses exactly when there are no fewer texts and, if there
      are no more either, nothing of the stream is missing. With a part missing the stream has not ended. */
  lemma CutStream(items: seq<Item>, written: string, missing: string, ended: bool, n: nat)
    requires (forall i :: i in items ==> Reads(i)) && LastMayClose(items)
    requires if missing == "" then CountsOnEnd(items) ==> ended else !ended
    requires Texts(items) == written + missing && n >= |items|
    ensures ReadAll(written, ended, n).Some? <==> n == |items| && missing == ""
    ensures n == |items| && missing == "" ==> ReadAll(written, ended, n) == Some(Receipts(items))
  {
    hide Texts, ReadAll, Unread, Receipts, Reads;
    if missing == "" {
      assert written + "" == written;
      if n > |items| { NoneBeyond(items, ended, n); } else { WholeStream(items, ended); }
    } else if ReadAll(written, ended, n).Some? {
      AllExtend(written, missing, true, n);
      if n > |items| { NoneBeyond(items, true, n); }
      WholeStream(items, true);
    }
  }
}
