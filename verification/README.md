# tinyWS: a verified model of its core

tinyWS is a small C++ web server built around a reactor: event loops that wait in `epoll_wait`, run event
handlers, and then run functors other threads have queued. This project models the multi-threaded reactor
(`multiThread`) and the accept lock of the pre-forking version (`multiProcess2`), and proves what the design promises.
Where the code falls short of the promise, the exact condition under which it keeps it is proved instead, and a failing
case is exhibited.

| module | what it models |
|---|---|
| `Wrappers`, `Text`, `Decimal` | optional values, searches, trimming, decimal numerals |
| `ByteBuffer` | `net/Buffer`: bytes in three regions, in place, refining a plain sequence |
| `HttpSpec`, `HttpTheorems`, `HttpParser` | the resumable request parser: functions, what they mean, and the classes proved against them |
| `HttpResponse`, `HttpServer` | printing of responses, a reader that takes them apart, `onMessage` and `onRequest` |
| `EventLoop` | functor queue and wakeup descriptor, all interleavings |
| `TimerSpec`, `TimerClock`, `TimerArming`, `TimerQueue` | timers as a step machine over whole runs, what its steps do to the timer descriptor, and the two-index class refining both |
| `Epoll` | channels, the poller and the kernel's interest set |
| `OutputSpec`, `TcpConnection` | the output stream of a connection as a step machine, and the class refining it: state, output buffer, write interest, dispatch order |
| `TcpServer` | connections created, closed and destroyed across loops, all interleavings |
| `AcceptLock` | the cross-process accept mutex, any number of processes, all interleavings |
| `Connector` | outgoing connection attempts: ownership of sockets, retries |
| `LogStream` | integer and pointer printing into a fixed buffer |

Where several threads, loops or processes act on shared state, the model is a step relation whose steps are what one of
them does between two points where another can interfere; a theorem over all runs is then one over all interleavings.
Elsewhere a C++ class is a Dafny class, and its methods change its fields. One `char` stands for one byte. Times are
microseconds.

System calls are parameters or nondeterministic: the kernel may write or deliver fewer bytes than asked for, or fail;
the clock may do anything between two readings; user callbacks may send, shut down, add and cancel timers and queue
functors as often as they like.

## Where code and intent differ

* **Sleeping on work.** `loop()` loses no wakeup in any interleaving, provided it is not entered with functors queued and
  no wakeup on its way; entered so, its first poll can sleep on them (`EventLoop.NeverSleepsOnWorkExactlyWhen`).
* **Exact ties.** `getExpired` leaves a timer that expires at `now` itself, and the assertion on line 169 of
  `TimerQueue.cpp` fails exactly then (`TimerQueue.TimerQueue.HandleRead`; a failing case is `TimerQueue.ExactTie`).
* **Re-arming.** `reset` does not set the timerfd when the earliest timer is already past. Afterwards the queue is armed
  in time exactly when no waiting timer is past or a callback has set the timerfd early enough for the timers put back
  (`TimerArming.BatchOnTimeExactlyWhen`). If it is then not set at all, no timer fires until an addition is strictly
  earliest (`TimerArming.StalledExactlyWhen`; a failing run is `TimerArming.MissedArming`).
* **Requests per message.** `onMessage` serves one request per message, so a pipelined request waits for bytes that may
  never come (`HttpTheorems.PipelinedRequestWaits`); `HttpTheorems.AllServedExactlyWhen` gives the exact condition on the
  arrivals.
* **Parser re-entry.** `parseRequest` spins when entered after the last header (`HttpTheorems.LoopTerminatesExactlyWhen`),
  and a message after a request line rejected with a known method fails the assertion in `setMethod`
  (`HttpTheorems.AbortsExactlyOnAssertion`; a failing run is `HttpTheorems.GetWithoutVersion`).
* **Lost answers.** `sendInLoop` drops a message while earlier output is pending; in every run a client gets all replies
  exactly when each was sent with the connection up and nothing queued, and all output has been written
  (`HttpServer.AllRepliesArriveExactlyWhen`; a failing run is `HttpServer.PartialWriteLosesAnswer`). Together with the
  condition on the arrivals this decides, from the bytes that come in to the bytes that go out, whether every request is
  answered (`HttpServer.RequestsToReplies`).
* **Length line.** The 32-byte scratch buffer holds the Content-Length line of bodies below 10^13 bytes; beyond that the
  response cannot be read at all (`HttpResponse.ReadsBackExactlyWhen`).
* **Double close.** A hang-up without input, but with urgent data, that finds the stream at its end closes a connection
  twice in one dispatch and fails the assertion in `handleClose` (`TcpConnection.Connection.HandleEvent`; a failing case is
  `TcpConnection.DoubleClose`). The poller may report that for the interest the source asks for; whether a TCP stack
  ever does is not part of this model.
* **Half-closed connections.** `connectionDestroyed` on a connection in `kDisconnecting` fails the assertion in `remove`,
  and in no other state (`TcpConnection.Connection.ConnectionDestroyed`; a failing case is
  `TcpConnection.HalfClosedDestroyed`). While the server lives it is never called so (`TcpServer.DestroyIsLast`).
* **Empty masks.** `disableAll` on a channel that is out of the kernel registers it again with an empty mask
  (`Epoll.EmptyMaskExactlyWhen`, `Epoll.DisableAllToggles`).
* **Ended processes.** When a process leaves its loop its server is destroyed, and with it the mutex all processes share,
  unless somebody holds it. The others can go on accepting exactly when one of them holds the lock at that moment
  (`AcceptLock.EndingStopsServerExactlyWhen`; failing runs are `AcceptLock.EndingWithFreeLock` and
  `AcceptLock.EndingWithTheLock`). The project's own README promises only that one process listens at a time, which holds
  (`AcceptLock.ConstructionDecides`).
* **Connector.** Its assertions hold exactly when a retry timer never fires in the iteration that set it and `stop()` does
  not precede `start()` (`Connector.MayFailExactlyWhen`, with `Connector.EarlyTimerFails` and `Connector.StopFirstFails`).
  The delay is divided by 1000 and passed as microseconds, so the back-off has no effect
  (`Connector.BackoffWithoutEffect`).
* **Pointers** are printed in decimal behind `0x` (`LogStream.PointerReadsBackExactlyWhen`).
* **End of headers.** Any line without a colon ends the headers, where the source's own comment speaks of the empty line.
  What is handed on is what a stricter server would hand on exactly when each request handed on ends with an empty line
  (`HttpTheorems.ServedStrictlyExactlyWhen`, `HttpTheorems.StrictAllExactlyWhen`; failing runs are
  `HttpTheorems.JunkEndsHeaders` and `HttpTheorems.RootRequests`).
* **Request bodies** are not read: whatever the headers say, the next request line is looked for in the body. Nothing is
  left behind exactly when the body is empty (`HttpTheorems.BodyIsNextRequestLine`).

## Model

| member | source | states |
|---|---|---|
| `Text.FindCrlf` | multiThread/net/Buffer.cpp:53-57 | the first CRLF of the readable bytes, or none |
| `Text.FindCrlfStable` | multiThread/net/Buffer.cpp:53-57 | bytes that arrive later do not move a CRLF already found |
| `Text.TrimStrips` | multiThread/http/HttpRequest.cpp:90-103 | trimming a header value cuts off exactly the white space around it |
| `Text.SpaceIs` | multiThread/http/HttpRequest.cpp:92-101 | white space is blank, tab, line feed, vertical tab, form feed and carriage return |
| `ByteBuffer.IntRoundTrip` | multiThread/net/Buffer.cpp:143-155 | a signed integer of any width survives its big-endian two's complement bytes |
| `ByteBuffer.EncodedByte` | multiThread/net/Buffer.cpp:143-155 | byte k of an integer of width bytes is its quotient by 256^(width-1-k), modulo 256: network order |
| `ByteBuffer.NetworkByte` | multiThread/net/Buffer.cpp:143-155 | the same for signed integers, of either sign |
| `ByteBuffer.Buffer.constructor` | multiThread/net/Buffer.cpp:14-21 | the three regions of a new buffer, as its assertions say |
| `ByteBuffer.Buffer.Retrieve` | multiThread/net/Buffer.cpp:80-87 | drops exactly the first len readable bytes, also when that resets the indexes |
| `ByteBuffer.Buffer.RetrieveAll` | multiThread/net/Buffer.cpp:107-110 | leaves nothing readable |
| `ByteBuffer.Buffer.RetrieveAsString` | multiThread/net/Buffer.cpp:116-122 | hands out the first len bytes and keeps the rest |
| `ByteBuffer.Buffer.Append` | multiThread/net/Buffer.cpp:133-137 | the contents followed by the new bytes, whether the buffer moved, grew or did neither |
| `ByteBuffer.Buffer.EnsureWritableBytes` | multiThread/net/Buffer.cpp:157-162 | room for len bytes, contents unchanged |
| `ByteBuffer.Buffer.MakeSpace` | multiThread/net/Buffer.cpp:284-296 | contents survive growth and compaction; the assertion kCheapPrepend < readerIndex_ follows from the caller's guard |
| `ByteBuffer.Buffer.MoveDown` | multiThread/net/Buffer.cpp:291 | the overlapping forward copy in place preserves the readable bytes |
| `ByteBuffer.Buffer.Prepend` | multiThread/net/Buffer.cpp:222-227 | the new bytes followed by the contents |
| `ByteBuffer.Buffer.AppendInt` | multiThread/net/Buffer.cpp:143-155 | appends the network bytes of an integer |
| `ByteBuffer.Buffer.PrependInt` | multiThread/net/Buffer.cpp:208-220 | puts the network bytes of an integer in front |
| `ByteBuffer.Buffer.ReadInt` | multiThread/net/Buffer.cpp:164-206 | whatever integer stands in front is read back, and only it is consumed |
| `ByteBuffer.Buffer.TakeIn` | multiThread/net/Buffer.cpp:260-265 | the bytes of one readv are appended whole, those from the extra area included |
| `ByteBuffer.Buffer.ReadFd` | multiThread/net/Buffer.cpp:239-274 | no byte is lost or reordered between kernel and buffer, under short reads and recursion; the result is negative exactly when the first readv fails, zero exactly at the end of the stream, and otherwise the gain, less one if a nested read failed |
| `HttpTheorems.RequestLineInverse` | multiThread/http/HttpContext.cpp:85-109 | a line is accepted if and only if it is method, target and HTTP/1.1 in the request-line form of section 3.1.1 of RFC 7230, and method, path and query are then the only ones there are |
| `HttpTheorems.RequestLineAccepted` | multiThread/http/HttpContext.cpp:85-109 | every line of the grammar is accepted with its own parts |
| `HttpTheorems.RequestLineSound` | multiThread/http/HttpContext.cpp:85-109 | every accepted line is one of the grammar |
| `HttpTheorems.MethodRoundTrip` | multiThread/http/HttpRequest.cpp:16-64 | methodString and setMethod are inverse on the known methods |
| `HttpTheorems.RequestLinesAre` | multiThread/http/HttpContext.cpp:85-109 | GET, POST, HEAD, PUT and DELETE, each with any path and query and HTTP/1.1, spelled out: accepted, with that method, path and query |
| `HttpTheorems.FieldExists` | multiThread/http/HttpRequest.cpp:90-103 | a line with a colon has a field, free of colons, and a value cut free of white space, of which the line consists but for the colon and white space |
| `HttpTheorems.FieldUnique` | multiThread/http/HttpRequest.cpp:90-103 | it has no other field and value; the reference reading of headers is defined by that relation |
| `HttpTheorems.ParseResumes` | multiThread/http/HttpContext.cpp:13-65 | parsing s and later t is parsing s + t when s neither completes nor fails; otherwise later bytes change nothing but the rest |
| `HttpTheorems.OneRound` | multiThread/http/HttpContext.cpp:16-62 | a continuing round of the loop consumes at least two bytes and heads for the same outcome |
| `HttpTheorems.LoopTerminatesExactlyWhen` | multiThread/http/HttpContext.cpp:16-62 | the loop stops, within half as many rounds as bytes plus one and with the specified result, exactly when entered before the last header; otherwise it spins forever |
| `HttpTheorems.HeadersByLines` | multiThread/http/HttpContext.cpp:40-58 | the header phase is the one-shot reading of header lines up to the first line without a colon |
| `HttpTheorems.PendingIsReference` | multiThread/http/HttpContext.cpp:13-65 | calling the resumable parser until it stops yields the requests of the one-shot grammar parser |
| `HttpTheorems.AbortsExactlyOnAssertion` | multiThread/http/HttpRequest.cpp:16-17 | the assertion in setMethod fails in the next message exactly when the line before was rejected with a known method |
| `HttpTheorems.RejectionThenAbort` | multiThread/http/HttpRequest.cpp:16-17 | any line rejected with a known method, followed by any message, fails the assertion |
| `HttpTheorems.GetWithoutVersion` | multiThread/http/HttpContext.cpp:85-109 | such a line: a GET without a version |
| `HttpTheorems.ParseFailure` | multiThread/http/HttpContext.cpp:23-35 | a rejected line stays in the buffer with the method it set, and failure and completion exclude each other |
| `HttpTheorems.MessageConserves` | multiThread/http/HttpServer.cpp:43-60 | what was pending is what this message serves followed by what is pending after it |
| `HttpTheorems.FragmentsConserve` | multiThread/http/HttpServer.cpp:43-60 | for any cut of the stream, the requests served followed by those still waiting are the reference reading |
| `HttpTheorems.FragmentationIndependence` | multiThread/http/HttpServer.cpp:43-60 | for every stream and every way of cutting it, the requests handed to onRequest are a prefix of what the one-shot parser reads |
| `HttpTheorems.OnePerMessage` | multiThread/http/HttpServer.cpp:46-59 | a message serves one waiting request if there is one, never two |
| `HttpTheorems.ServedIsLeast` | multiThread/http/HttpServer.cpp:46-59 | the number served is the least, over all prefixes of the messages, of the requests complete in it plus one for each message after it |
| `HttpTheorems.AllServedExactlyWhen` | multiThread/http/HttpServer.cpp:46-59 | every complete request is answered if and only if no run of last messages completes more requests than it has messages |
| `HttpTheorems.PipelinedRequestWaits` | multiThread/http/HttpServer.cpp:46-59 | two requests in one message: both complete, one served |
| `HttpTheorems.PlainLineFinishes` | multiThread/http/HttpContext.cpp:46-55 | any line without a colon ends the headers, and what follows it is left |
| `HttpTheorems.StrictExactlyWhen` | multiThread/http/HttpContext.cpp:46-55 | a reading that insists on an empty line agrees with this one for k requests if and only if the first k end with an empty line, and never goes further |
| `HttpTheorems.StrictAllExactlyWhen` | multiThread/http/HttpContext.cpp:46-55 | the two readings are the same if and only if every request ends with an empty line |
| `HttpTheorems.ServedStrictlyExactlyWhen` | multiThread/http/HttpServer.cpp:43-60 | for every cut of the stream, what is handed on is part of the strict reading if and only if the requests handed on end with an empty line |
| `HttpTheorems.AllServedStrictlyExactlyWhen` | multiThread/http/HttpServer.cpp:46-59 | for streams whose requests all end so, the strict reading is answered in full if and only if no run of last messages completes more requests than it has messages |
| `HttpTheorems.JunkEndsHeaders` | multiThread/http/HttpContext.cpp:46-55 | a request line and a line of junk are served as a request that the strict reading does not have |
| `HttpTheorems.RootRequests` | multiThread/http/HttpContext.cpp:46-55 | a concrete request that waits when pipelined, and is served when junk follows it |
| `HttpTheorems.BodyIsNextRequestLine` | multiThread/http/HttpContext.cpp:59-61 | a body is left for the next request line, whatever the headers say; nothing is left exactly when it is empty |
| `HttpTheorems.MessageKeepsInvariant` | multiThread/http/HttpServer.cpp:43-60 | a session is always fresh, inside headers, or stuck behind a rejected line |
| `HttpParser.HttpRequest.SetMethod` | multiThread/http/HttpRequest.cpp:16-35 | each of the five names, spelled out, sets its method and is known; any other is not |
| `HttpParser.HttpRequest.AddHeader` | multiThread/http/HttpRequest.cpp:90-103 | both trimming loops: whatever field, colon and raw value the line consists of, the raw value without the white space around it is filed under the field |
| `HttpParser.HttpRequest.Swap` | multiThread/http/HttpRequest.cpp:119-125 | exchanges all fields |
| `HttpParser.HttpContext.ProcessRequestLine` | multiThread/http/HttpContext.cpp:85-109 | fills the request as the specification says, partial results of a rejected line included |
| `HttpParser.HttpContext.ParseLine` | multiThread/http/HttpContext.cpp:17-61 | one round of the loop is one round of the specified loop |
| `HttpParser.HttpContext.ParseRequest` | multiThread/http/HttpContext.cpp:13-65 | the loop, over the buffer in place, has the state, request, leftover bytes and verdict of the specified parse |
| `HttpParser.HttpContext.Reset` | multiThread/http/HttpContext.cpp:71-75 | a reset context is a fresh one |
| `HttpParser.HttpConnection.constructor` | multiThread/http/HttpServer.cpp:37-41 | a fresh context over the input buffer of the connection |
| `HttpParser.HttpConnection.OnMessage` | multiThread/http/HttpServer.cpp:43-60 | one message is one step of the specified session; a rejection is answered, and never together with a request |
| `HttpServer.OnRequest` | multiThread/http/HttpServer.cpp:62-73 | the answer closes as the callback says, or, when the callback leaves that alone, exactly when the request has a Connection header that is close |
| `HttpServer.ReplyTo` | multiThread/http/HttpServer.cpp:43-60 | what a message is answered with: a rejection exactly for a bad line, an answer exactly for a request served |
| `HttpServer.Deliver` | multiThread/http/HttpServer.cpp:74-87 | sending and closing are exactly these steps of the output stream |
| `HttpServer.OnMessage` | multiThread/http/HttpServer.cpp:43-60 | parsing, answering and closing together: the session and the output stream after a message |
| `HttpServer.AllRepliesArriveExactlyWhen` | multiThread/net/TcpConnection.cpp:255-289 | in every run, under every partial write, a client finds one response for each reply sent, rejections and closing answers included, if and only if at each sending the connection was up with nothing queued and all is written now; it then reads these replies |
| `HttpServer.ItemReads` | multiThread/http/HttpServer.cpp:46-50 | a printed reply is read as what it is meant to be: whatever follows it, or, for a rejection or a closing answer, at the end of the stream |
| `HttpServer.TakenIs` | multiThread/net/TcpConnection.cpp:255-289 | in every run the accepted bytes are the replies sent while the connection took them, in order; only the last can be a closing one, and the stream ends behind it once all is written |
| `HttpServer.PartialWriteLosesAnswer` | multiThread/net/TcpConnection.cpp:255-289 | a run in which a partial write makes the second answer vanish, and the run in which it does not |
| `HttpServer.HappeningsServe` | multiThread/http/HttpServer.cpp:43-60 | whatever happens between the messages, the requests served and the session are those of the messages alone |
| `HttpServer.RequestsToReplies` | multiThread/http/HttpServer.cpp:43-88 | from bytes in to bytes out, for every cut of the requests and every partial write: the client reads one response for each complete request and each rejection if and only if requests do not arrive faster than messages, every reply is sent with the connection up and nothing queued, and nothing is queued at the end; these are the answers to the requests, in order, and at most one rejection, at the end |
| `HttpServer.TakeMessage` | multiThread/http/HttpServer.cpp:43-88 | one message on a connection and its context is one such happening |
| `HttpServer.Converse` | multiThread/net/TcpConnection.cpp:184-191 | a connection and its context over one input buffer, at work on any messages with the socket writable in between: the requests served and the output stream are those of such a run |
| `HttpServer.EventRuns` | multiThread/net/TcpConnection.cpp:201-289 | sending a reply, and whatever else happens, is a run of the output stream |
| `HttpResponse.PutIsAssignment` | multiThread/http/HttpResponse.cpp:35-37 | the ordered header map: assignment under one key, all others untouched, order kept |
| `HttpResponse.HttpResponse.AddHeader` | multiThread/http/HttpResponse.cpp:35-37 | assigns one header |
| `HttpResponse.HttpResponse.AppendToBuffer` | multiThread/http/HttpResponse.cpp:43-71 | appends status line, framing, headers and body behind what the buffer holds |
| `HttpResponse.LengthLineFits` | multiThread/http/HttpResponse.cpp:57-58 | the scratch buffer holds the length line if and only if the body is below 10^13 bytes |
| `HttpResponse.BlockReads` | multiThread/http/HttpResponse.cpp:62-69 | safe headers are read back one by one up to the empty line, and body bytes never as headers |
| `HttpResponse.FramedBlock` | multiThread/http/HttpResponse.cpp:52-70 | the whole header block of a keep-alive response is read back |
| `HttpResponse.SpilledBlock` | multiThread/http/HttpResponse.cpp:57-59 | a cut length line runs into the next and gives an unreadable length |
| `HttpResponse.ReadsBackExactlyWhen` | multiThread/http/HttpResponse.cpp:43-71 | a Content-Length reader (section 3.3.3 of RFC 7230) recovers status, headers and body of a keep-alive response, and the start of the next one, exactly when the body is below 10^13 bytes, and empty for a code that allows none |
| `HttpResponse.ClosingReadsBackExactlyWhen` | multiThread/http/HttpResponse.cpp:53-55 | a closing response is recovered, whatever the size of its body, exactly when the stream ends behind it |
| `HttpResponse.BackToBack` | multiThread/http/HttpResponse.cpp:43-71 | any sequence of keep-alive responses printed back to back is uniquely read back |
| `HttpResponse.ResponseExtends` | multiThread/http/HttpResponse.cpp:43-71 | a response read without the end of the stream stays what it is when more bytes follow |
| `HttpResponse.WholeStream` | multiThread/http/HttpResponse.cpp:43-71 | a whole stream of printed texts, of which the last may end it, is read text by text with nothing left |
| `HttpResponse.NoneBeyond` | multiThread/http/HttpResponse.cpp:43-71 | such a stream cannot be read as more responses than it has texts |
| `HttpResponse.CutStream` | multiThread/http/HttpResponse.cpp:43-71 | from a first part of such a stream n responses are read if and only if there are n texts and no byte is missing |
| `EventLoop.StepKeepsInv` | multiThread/net/EventLoop.cpp:82-150 | every step of loop or other threads keeps no-lost-wakeup, queue order, the batch boundary and no-lost-quit |
| `EventLoop.RunKeepsInv` | multiThread/net/EventLoop.cpp:82-150 | so does every interleaving |
| `EventLoop.ComesToRest` | multiThread/net/EventLoop.cpp:203-217 | a loop left alone by threads that owe it nothing enters epoll_wait, in bounded steps, with nothing queued, everything pushed run and the eventfd read back to zero, so that it sleeps |
| `EventLoop.RunRecords` | multiThread/net/EventLoop.cpp:119-150 | in every run the functors pushed are those queueInLoop was called with, in lock order, and quit is set exactly when somebody called quit |
| `EventLoop.QuitIsObeyed` | multiThread/net/EventLoop.cpp:82-117 | a loop that was asked to quit leaves in bounded steps once the wakeups owed are written; one that was not asked has not left |
| `EventLoop.NeverSleepsOnWorkExactlyWhen` | multiThread/net/EventLoop.cpp:135-149 | no interleaving ever sleeps on a waiting functor if and only if the loop is entered with no functor queued or with a wakeup announced |
| `EventLoop.RunsInOrder` | multiThread/net/EventLoop.cpp:219-234 | functors run once each, in lock order, and one queued during a batch waits for the next |
| `EventLoop.SleepsOnlyWhenIdle` | multiThread/net/EventLoop.cpp:92-99 | asleep with nothing on the eventfd and nobody about to write: nothing waits, all pushes have run, no quit is pending |
| `EventLoop.OneStepCloser` | multiThread/net/EventLoop.cpp:92-99 | each step of an undisturbed loop comes closer to having run everything |
| `EventLoop.RunsEverythingQueued` | multiThread/net/EventLoop.cpp:92-99 | from every reachable state the loop thread alone runs all queued functors in bounded steps, without a poll timeout |
| `TimerSpec.StepKeepsInv` | multiThread/net/TimerQueue.cpp:119-197 | every addition, cancellation, expiry, callback and reset keeps the history invariant of every timer |
| `TimerSpec.RunKeepsInv` | multiThread/net/TimerQueue.cpp:119-197 | so does every run |
| `TimerSpec.FiringHistory` | multiThread/net/TimerQueue.cpp:146-197 | in every run a one-shot timer fires at most once, and handleRead times of a periodic timer's firings lie more than an interval apart |
| `TimerSpec.NoTimerLost` | multiThread/net/TimerQueue.cpp:146-208 | in every run a timer not cancelled waits, is due in the running batch, or is a one-shot timer that has fired; between batches a periodic one waits for its last firing plus its interval |
| `TimerSpec.NeverEarly` | multiThread/net/TimerQueue.cpp:146-187 | in every run after its addition, no firing of a timer is at or before the time it was set for |
| `TimerSpec.RunRecords` | multiThread/net/TimerQueue.cpp:76-144 | in every run the timers cancelled and those known, with their intervals, are those somebody cancelled or added |
| `TimerSpec.CancelIsFinal` | multiThread/net/TimerQueue.cpp:119-144 | after a cancellation a timer never waits again, and fires at most once more, only if it stood in the running batch |
| `TimerSpec.CancelledSpends` | multiThread/net/TimerQueue.cpp:133-141 | a cancelled timer's firings, the one still due in the batch included, never grow |
| `TimerQueue.Timer.Restart` | multiThread/net/Timer.cpp:48-56 | a periodic timer moves to now plus its interval, any other to zero |
| `TimerClock.TimeSpecExact` | multiThread/net/TimerQueue.cpp:48-58 | the timespec is normalised and exact, at the 100 microsecond floor as well |
| `TimerClock.ArmDeadline` | multiThread/net/TimerQueue.cpp:65-74 | the descriptor fires at the wanted time or the floor, whichever is later |
| `TimerArming.StepKeepsOnTime` | multiThread/net/TimerQueue.cpp:110-144 | additions, cancellations and callbacks keep the descriptor in time, and never make it late |
| `TimerArming.SetForLeast` | multiThread/net/TimerQueue.cpp:110-117 | a descriptor is set by a strictly earliest addition or a reset, and is then due at the least expiry or 100 microseconds after the setting, whichever is later: neither earlier nor later |
| `TimerArming.DueForLeast` | multiThread/net/TimerQueue.cpp:199-206 | after every run of additions, cancellations and batches the descriptor is unset, untouched, or due for the least expiry of the moment it was last set |
| `TimerArming.ResetOnTimeExactlyWhen` | multiThread/net/TimerQueue.cpp:199-206 | exactly when the end of a batch leaves the queue armed in time |
| `TimerArming.BatchOnTimeExactlyWhen` | multiThread/net/TimerQueue.cpp:146-160 | the same for a whole handleRead with callbacks that add and cancel at will: the queue is empty, or none of its timers is past, or the callbacks set the descriptor in time for the timers put back |
| `TimerArming.StalledExactlyWhen` | multiThread/net/TimerQueue.cpp:110-117 | an unset descriptor stays unset, and nothing fires, exactly as long as no addition is strictly earliest |
| `TimerArming.MissedArming` | multiThread/net/TimerQueue.cpp:199-206 | a run that ends with timers waiting and the descriptor unset |
| `TimerQueue.SameSize` | multiThread/net/TimerQueue.cpp:212-240 | indexes that agree have equally many elements: the size assertions |
| `TimerQueue.TimerQueue.Insert` | multiThread/net/TimerQueue.cpp:210-243 | both indexes gain exactly this timer, its assertions hold, and the result says whether it is strictly earliest |
| `TimerQueue.TimerQueue.AddTimerInLoop` | multiThread/net/TimerQueue.cpp:110-117 | one addition: a strictly earliest timer sets the descriptor for its expiry, or 100 microseconds from now if that is later; any other leaves it alone; being armed in time is kept |
| `TimerQueue.TimerQueue.Erase` | multiThread/net/TimerQueue.cpp:125-132 | both indexes lose exactly this timer if they have it |
| `TimerQueue.TimerQueue.CancelInLoop` | multiThread/net/TimerQueue.cpp:119-144 | one cancellation, in the queue or in the running batch |
| `TimerQueue.TimerQueue.GetExpired` | multiThread/net/TimerQueue.cpp:162-187 | takes exactly the timers with expiry before now, earliest first, out of both indexes; the assertion on line 169 holds if and only if none expires at now |
| `TimerQueue.TimerQueue.Reinsert` | multiThread/net/TimerQueue.cpp:189-197 | re-inserts exactly the periodic timers of the batch that were not cancelled, under their new expiry |
| `TimerQueue.TimerQueue.Reset` | multiThread/net/TimerQueue.cpp:189-208 | the queue after the batch, and the timerfd set for the least expiry unless that is past |
| `TimerQueue.TimerQueue.RunCallback` | multiThread/net/TimerQueue.cpp:155 | a callback that adds and cancels at will is a run of additions and cancellations, for queue and timerfd |
| `TimerQueue.TimerQueue.RunBatch` | multiThread/net/TimerQueue.cpp:154-156 | all callbacks of the batch run, in order, whatever they add or cancel |
| `TimerQueue.TimerQueue.HandleRead` | multiThread/net/TimerQueue.cpp:146-160 | a whole handleRead is a run of the timer machine, for queue and timerfd; the callbacks of exactly the timers before now are called, once each, earliest first; its assertions hold but for the tie, exactly; and exactly when the queue is armed in time afterwards |
| `TimerQueue.ExactTie` | multiThread/net/TimerQueue.cpp:165-169 | a queue, one timer and a reading of the clock that fail the assertion on line 169 |
| `TimerQueue.AllExpired` | multiThread/net/TimerQueue.cpp:166-173 | what is taken is every expired timer and no other |
| `Epoll.DisableAllToggles` | multiThread/net/Channel.cpp:104-107 | repeated disableAll takes a descriptor out of the kernel and, with an empty mask, back in |
| `Epoll.EmptyMaskExactlyWhen` | multiThread/net/Channel.cpp:99-107 | an operation registers an empty mask exactly when it leaves no interest on a channel that is not registered |
| `Epoll.SoundForever` | multiThread/net/Channel.cpp:89-107 | no sequence of operations leaves interest on a channel outside the kernel |
| `Epoll.Poller.UpdateChannel` | multiThread/net/Epoll.cpp:61-96 | no assertion fails, the kernel refuses no operation, and its interest set is that of the channels again |
| `Epoll.Poller.Change` | multiThread/net/Channel.cpp:89-107 | enabling and disabling keep kernel, map and status in agreement, and touch no other descriptor |
| `Epoll.Poller.Remove` | multiThread/net/Epoll.cpp:98-108 | a removed channel is in neither map nor kernel |
| `Epoll.Poller.Poll` | multiThread/net/Epoll.cpp:36-59 | each ready descriptor yields its own registered channel with its event, in order, and only events its interest allows; the event list doubles exactly when full |
| `OutputSpec.StepKeepsInv` | multiThread/net/TcpConnection.cpp:201-300 | every sending, writing, shutdown and closing keeps the stream in order and the half-close in its place |
| `OutputSpec.StreamIntegrity` | multiThread/net/TcpConnection.cpp:201-300 | in every run the socket has taken the accepted messages, whole and in order, up to what is queued; one half-close at most, after the last byte |
| `OutputSpec.NothingAfterHalfClose` | multiThread/net/TcpConnection.cpp:295-300 | in no run anything is written after the half-close |
| `TcpConnection.Connection.ConnectionEstablished` | multiThread/net/TcpConnection.cpp:129-140 | a connecting connection is up and watches for input |
| `TcpConnection.NewConnection` | multiThread/net/TcpConnection.cpp:129-140 | a connection on a descriptor of its own, registered and up, with nothing sent or received |
| `TcpConnection.Connection.Send` | multiThread/net/TcpConnection.cpp:63-73 | one sending step: a message is accepted, as a whole, exactly when the connection is up and nothing is queued; then one write is tried |
| `TcpConnection.Connection.SendInLoop` | multiThread/net/TcpConnection.cpp:255-289 | the same step, for any partial write: what is not taken is queued and write interest turned on |
| `TcpConnection.Connection.HandleWrite` | multiThread/net/TcpConnection.cpp:201-234 | one writing step: a write is tried exactly when output is queued; write interest ends with the last byte, and a pending half-close follows it |
| `TcpConnection.Connection.Shutdown` | multiThread/net/TcpConnection.cpp:81-86 | one shutdown step: the half-close comes now or after the last queued byte |
| `TcpConnection.Connection.HandleClose` | multiThread/net/TcpConnection.cpp:236-247 | one closing step, and the descriptor is out of the kernel |
| `TcpConnection.Connection.ConnectionDestroyed` | multiThread/net/TcpConnection.cpp:142-154 | in every state: remove's assertion fails exactly for a half-closed connection; otherwise the channel is out of map and kernel |
| `TcpConnection.Connection.MessageCallback` | multiThread/net/TcpConnection.cpp:188-191 | any mixture of sends, shutdowns and retrievals is a run of sending and shutdown steps; of the input it takes exactly the bytes it retrieves, from the front |
| `TcpConnection.Connection.HandleRead` | multiThread/net/TcpConnection.cpp:184-199 | closes exactly when the stream is at its end and readv does not fail; a second close is the only assertion that fails; otherwise what was read stands in the input or was handed to the callback, which is called exactly when something was read |
| `TcpConnection.Connection.HandleEvent` | multiThread/net/Channel.cpp:139-181 | in event bits, the callbacks in dispatch order, as steps of the output stream; the connection closes exactly on a hang-up without input or at the end of the stream, and the close assertion fails exactly on both; input that waits and can be read never closes it |
| `TcpConnection.DoubleClose` | multiThread/net/Channel.cpp:146-172 | a connection and a reported event on which that assertion fails |
| `TcpConnection.HalfClosedDestroyed` | multiThread/net/TcpConnection.cpp:142-154 | a connection that was shut down fails the assertion in remove when it is destroyed |
| `TcpServer.NameInjective` | multiThread/net/TcpServer.cpp:70-73 | different numbers give different names |
| `TcpServer.StepKeepsInv` | multiThread/net/TcpServer.cpp:68-121 | from every reachable state every action meets its assertions and leads to a state in which each connection is at exactly one stage of its life |
| `TcpServer.NoAssertionFails` | multiThread/net/TcpServer.cpp:68-121 | after any run, whatever happens next meets no failing assertion: the erase on line 112 finds its entry, connections are established while connecting, closed once, removed without interest |
| `TcpServer.RunKeepsInv` | multiThread/net/TcpServer.cpp:68-121 | every interleaving of the loops keeps the life-cycle invariant |
| `TcpServer.DestroyedExactlyWhen` | multiThread/net/TcpConnection.cpp:55-61 | a connection is destroyed once exactly when it is closed and nothing about it is under way; the last reference, those of functors not yet done with included, is gone exactly when it is destroyed and they are; its channel is mapped from establishment to destruction |
| `TcpServer.NamesDistinct` | multiThread/net/TcpServer.cpp:89 | a new connection never takes another's entry, entries are distinct, and every removal under way finds its own |
| `TcpServer.DestroyIsLast` | multiThread/net/TcpServer.cpp:118-120 | connectionDestroyed runs in the connection's own loop, outside event batches, once it is disconnected and off the map, for the first time |
| `TcpServer.StatesOf` | multiThread/net/TcpConnection.cpp:81-154 | what each action makes of the state of each connection: whom it establishes, shuts down, closes, and that it leaves all others alone |
| `TcpServer.ClosedAndDestroyedOnce` | multiThread/net/TcpServer.cpp:101-121 | over a whole run a connection is closed at most once and destroyed at most once and never unclosed; both counts agree when nothing is under way |
| `TcpServer.DestructorAfterFunctors` | multiThread/net/TcpConnection.cpp:55-61 | the last reference goes only when a loop is done with its functors, never during events, and the connection is then disconnected and unmapped |
| `TcpServer.RunOwes` | multiThread/net/TcpServer.cpp:101-121 | from its closing on, in every run, a connection is destroyed exactly when the at most two functors owed have run; nothing else adds to them |
| `TcpServer.ReachFunctors` | multiThread/net/EventLoop.cpp:92-99 | from every reachable state a loop left to itself comes to its functors |
| `TcpServer.ReachPolling` | multiThread/net/EventLoop.cpp:92-99 | and on to epoll_wait, with every functor it ran released |
| `TcpServer.ReportsHandled` | multiThread/net/EventLoop.cpp:92-99 | in every run a loop has handled as many events of a connection as its polls reported, but for one still to come in the batch at hand |
| `TcpServer.ClosedIsDestroyed` | multiThread/net/TcpServer.cpp:101-121 | from every reachable state each closed connection can be destroyed by letting its functors run |
| `TcpServer.BatchKeepsChannels` | multiThread/net/EventLoop.cpp:92-99 | no channel of a loop is deregistered during the loop's event batch, however the other loops act |
| `TcpServer.ActiveIsRegistered` | multiThread/net/EventLoop.cpp:92-99 | a channel whose event is still to be handled is registered |
| `TcpServer.Server.NewConnection` | multiThread/net/TcpServer.cpp:68-99 | the map, the counter and the queued establishment after an accept |
| `TcpServer.Server.RemoveConnectionInLoop` | multiThread/net/TcpServer.cpp:108-121 | erases its entry, counts what it erased, and queues the destruction in the connection's loop |
| `TcpServer.Server.HandleClose` | multiThread/net/TcpServer.cpp:101-106 | closing with the close callback, at once in the base loop and queued from any other; one entry is erased |
| `AcceptLock.SharedExactlyWhenMutexFirst` | multiProcess2/net/TcpServer.h:38-43 | for every sequence of initialisation steps with one mutex: all processes see one mutex if and only if it is created before the first child is forked |
| `AcceptLock.ConstructionDecides` | multiProcess2/net/TcpServer.cpp:20-36 | for every such sequence: its processes exclude each other in every run, and never miss a connection, if and only if the mutex comes first |
| `AcceptLock.DeclaredOrder` | multiProcess2/net/TcpServer.h:38-43 | the declared members are such a sequence, mutex first, and make five processes |
| `AcceptLock.StepKeepsInv` | multiProcess2/net/TcpServer.cpp:187-205 | every move of a process keeps ownership, flag and registration in step, and no connection is lost |
| `AcceptLock.WatchingNeedsTheLock` | multiProcess2/net/EventLoop.cpp:36-62 | in every run a process watching the listening socket owns the mutex, and at every poll isLock_, ownership and registration agree |
| `AcceptLock.ExclusiveExactlyWhenShared` | multiProcess2/net/TcpServer.cpp:20-36 | at most one process watches the socket in every run if and only if all see one mutex |
| `AcceptLock.HookAgain` | multiProcess2/net/TcpServer.cpp:187-194 | a holder that runs the hook again changes neither lock, flag nor registration |
| `AcceptLock.NeverMissesExactlyWhenShared` | multiProcess2/net/Acceptor.cpp:82-108 | no process is ever woken for a connection another one takes if and only if all see one mutex |
| `AcceptLock.StuckForever` | multiProcess2/net/EventLoop.cpp:66-70 | once no live process can get the lock, no run accepts another connection |
| `AcceptLock.ServesAgainExactlyWhen` | multiProcess2/net/TcpServer.cpp:187-205 | from any reachable state another connection can be accepted if and only if some process that has not ended owns its mutex, or finds it free and not destroyed |
| `AcceptLock.EndingStopsServerExactlyWhen` | multiProcess2/net/EventLoop.cpp:66-70 | when a process ends and its server is destroyed, the others can go on serving if and only if one of them holds the lock at that moment |
| `AcceptLock.EndingWithFreeLock` | multiProcess2/base/ProcessMutexLock.h:41-45 | a run in which a process ends with the lock free, and a live process can never accept again |
| `AcceptLock.EndingWithTheLock` | multiProcess2/net/EventLoop.cpp:66-70 | a run in which a process ends holding the lock, with the same result |
| `AcceptLock.TakeListening` | multiProcess2/net/EventLoop.cpp:45-52 | takes exactly the first entry for the listening socket out of the active channels |
| `AcceptLock.World.Advance` | multiProcess2/net/EventLoop.cpp:36-62 | a move of a process is a step of the relation and extends the run so far |
| `AcceptLock.Server.LockAcceptor` | multiProcess2/net/TcpServer.cpp:187-194 | with the other processes moving between any two of its steps, the hook is a run of the relation, and afterwards flag, registration and ownership agree |
| `AcceptLock.Server.UnlockAcceptor` | multiProcess2/net/TcpServer.cpp:196-205 | with the others moving likewise, a run of the relation after which this process holds nothing |
| `AcceptLock.Server.HandleRead` | multiProcess2/net/Acceptor.cpp:82-108 | one accept for a report, which finds a connection whenever all processes see one mutex |
| `AcceptLock.Server.Turn` | multiProcess2/net/EventLoop.cpp:36-62 | with the others moving at any time, a turn of the loop is a run of the relation: one accept when the socket is reported, and the lock is given back then; otherwise it is kept |
| `AcceptLock.Server.EndTurn` | multiProcess2/net/TcpServer.cpp:55-63 | the end of a turn, and of a process: whether the others can go on |
| `Connector.StepKeepsInv` | multiThread/net/Connector.cpp:69-216 | every step of an orderly run meets its assertions and keeps the ledger of sockets and the state of the channel |
| `Connector.SocketsLinear` | multiThread/net/Connector.cpp:88-216 | in every orderly run each socket is closed once or handed over once, the outstanding one excepted, which exists exactly while connecting; at most the last is handed over |
| `Connector.OneRetryPerDispatch` | multiThread/net/Connector.cpp:148-188 | error and write in one dispatch close the socket once, reset the channel once and retry once |
| `Connector.AttemptLeaves` | multiThread/net/Connector.cpp:88-134 | an attempt opens one socket: under way, it is open and watched; to be tried again, it is closed and exactly one retry timer is set; hopeless, it is closed and none is set |
| `Connector.TriesAgainExactlyWhen` | multiThread/net/Connector.cpp:69-134 | from any reachable state without an attempt under way, another attempt can come if and only if the connector is not stopped and a start or retry is on its way |
| `Connector.FailedAttemptExactlyWhen` | multiThread/net/Connector.cpp:112-127 | after a failed attempt another one can come if and only if connect reported an error worth another try |
| `Connector.GivenUpForever` | multiThread/net/Connector.cpp:117-127 | once no attempt is under way and no start or retry on its way, no run opens another socket |
| `Connector.StopIsFinal` | multiThread/net/Connector.cpp:55-86 | after stop() no run opens a socket or hands one over |
| `Connector.MayFailExactlyWhen` | multiThread/net/Connector.cpp:136-146 | an assertion can fail in some run if and only if a retry timer may fire in the iteration that set it or stop() may come before start() |
| `Connector.EarlyTimerFails` | multiThread/net/Connector.cpp:190-216 | the run that fails with an early timer |
| `Connector.StopFirstFails` | multiThread/net/Connector.cpp:55-86 | the run that fails with stop() before start() |
| `Connector.BackoffIs` | multiThread/net/Connector.h:37-38 | the delay after n retries: 500 ms doubled n times, up to 30 s |
| `Connector.RunKeepsDelay` | multiThread/net/Connector.cpp:190-202 | in every run the delay depends on the number of retries alone |
| `Connector.BackoffWithoutEffect` | multiThread/net/Connector.cpp:196-198 | every delay below 101 s, hence every delay there is, ends at the timer's 100 microsecond floor |
| `Connector.Connector.BeginConnecting` | multiThread/net/Connector.cpp:42-45 | start() allows connecting and starts at once in the loop, or queues that |
| `Connector.Connector.StartNow` | multiThread/net/Connector.cpp:69-146 | one attempt unless stopped: under way, the socket is open and watched and no timer is set; to be tried again, it is closed once and exactly one timer is set; hopeless, it is closed once and none is set |
| `Connector.Connector.StopConnecting` | multiThread/net/Connector.cpp:55-59 | stop() forbids connecting and queues the rest |
| `Connector.Connector.StopNow` | multiThread/net/Connector.cpp:79-86 | closes a socket being connected, and no other |
| `Connector.Connector.RunQueued` | multiThread/net/EventLoop.cpp:229-231 | what each of the connector's functors does when the loop comes to it |
| `Connector.Connector.ResetTheChannel` | multiThread/net/Connector.cpp:214-216 | the channel is gone, and nothing else changes |
| `Connector.Connector.HandleWrite` | multiThread/net/Connector.cpp:148-176 | hands the socket over, closes it, or retries |
| `Connector.Connector.HandleError` | multiThread/net/Connector.cpp:178-188 | closes the socket and retries |
| `Connector.Connector.RetryLater` | multiThread/net/Connector.cpp:190-202 | closes the socket and sets one timer unless stopped |
| `Connector.Connector.HandleEvent` | multiThread/net/Channel.cpp:159-178 | after a dispatch the socket has been closed or handed over once, or not touched when nothing was reported |
| `Decimal.PrintRead` | multiThread/base/LogStream.cpp:12-30 | printing and reading are inverse on every integer |
| `Decimal.DigitCount` | multiThread/base/LogStream.cpp:12-30 | a numeral has at most k digits if and only if the number is below 10^k |
| `LogStream.DigitLookup` | multiThread/base/LogStream.cpp:9-20 | truncating remainders of either sign find their digit in the table |
| `LogStream.WriteDigits` | multiThread/base/LogStream.cpp:17-21 | the do-while loop writes the digits of the absolute value, least significant first, the minimum included |
| `LogStream.ReversedTwice` | multiThread/base/LogStream.cpp:27 | reversing them gives the canonical numeral |
| `LogStream.ReverseRange` | multiThread/base/LogStream.cpp:27 | the range reversed in place, the rest untouched |
| `LogStream.Convert` | multiThread/base/LogStream.cpp:12-30 | the canonical numeral and a NUL, and nothing else in the buffer changes |
| `LogStream.LongestText` | multiThread/base/LogStream.cpp:36 | every 64-bit value takes at most 20 characters |
| `LogStream.FixedBuffer.FormatInteger` | multiThread/base/LogStream.cpp:187-193 | the whole numeral or nothing; never a byte past the buffer |
| `LogStream.FixedBuffer.FormatPointer` | multiThread/base/LogStream.cpp:92-103 | "0x" and decimal digits, or nothing; never a byte past the buffer |
| `LogStream.PrintedIntegerReadsBack` | multiThread/base/LogStream.cpp:12-30 | every value up to 64 bits is printed in canonical form and reads back |
| `LogStream.PointerReadsBackExactlyWhen` | multiThread/base/LogStream.cpp:92-103 | read as the hexadecimal number its prefix announces, a pointer reads back if and only if it is below ten |

## Left out

- Integer widths of counters, descriptors, sizes and times (`int`, `size_t`, `int64_t`): unbounded in the model, except
  where the width is the point (network integers, 64-bit printing, the 32-byte scratch buffer).
- TimerQueue.TimerQueue.GetExpired: does not fix the order of timers with equal expiry, which the source orders by
  address.
- TcpServer.StepKeepsInv: lets the functors of a loop run in any order, which covers the order in which they were queued;
  the closing of a connection happens at most once in a dispatch, as `TcpConnection.Connection.HandleEvent` delimits.
- TcpServer.ClosedAndDestroyedOnce: assumes that the server itself is not destroyed while loops run.
- TcpServer.DestroyedExactlyWhen: counts the references of the server and of functors; a user that keeps a pointer of its
  own is not modelled.
- TcpServer.ClosedIsDestroyed: a run that destroys the connection exists; that loops come to their functors in bounded
  steps is `EventLoop.RunsEverythingQueued`, in that module's terms.
- TcpConnection.Connection.Shutdown: the half-close is an abstract event; that the source passes SHUT_RD is not modelled.
- TcpConnection.Connection.Send: from the loop thread only; sending or cancelling a timer from another thread while the
  connection closes or the timer expires is not modelled.
- HttpParser.HttpConnection.OnMessage: the bytes of a message are appended here; in the source `readFd` has appended them
  just before.
- HttpServer.AllRepliesArriveExactlyWhen: about answers a client can frame, as `HttpResponse.Printable` says. The reader is
  that of a client that sends no HEAD request, whose answers have no body whatever their length says; and it counts an
  interim response (1xx) as a response.
- Request bodies: the source does not read them, and neither does the reference parser; `HttpTheorems.BodyIsNextRequestLine`
  says what becomes of them.
- AcceptLock.EndingStopsServerExactlyWhen: what a mutex does that is destroyed while processes use it is left open by
  POSIX; the model follows glibc, where a held mutex refuses and a destroyed one can never be locked again. Processes
  killed without running destructors are not modelled, nor that the parent signals its children when it ends.
- AcceptLock.ServesAgainExactlyWhen: no replacement of a child that has ended, and no client that gives up while waiting.
- Connector.SocketsLinear: one call of `start()` and none of `restart()`; failure of `socket()` itself.
- Decoding of errno values and log output; write-complete and high-water-mark callbacks.
- `Buffer::shrink`, `Buffer::swap`, `findEOL`: would add easy members only.
- Floating point printing, and `FixedBuffer::append`, whose body is empty.
- AsyncLogging and BoundedBlockingQueue, whose code keeps no conservation or queue property.
- TcpClient, whose `newConnection` never stores the connection; destruction of Connector and EventLoop.
- `multiProcess1`: process pool and passing of descriptors; thread pools, addresses, `any` and other wrappers.
