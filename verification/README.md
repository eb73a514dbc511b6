# Verification of the reactor and its HTTP server

This project models a C++ network library, a reactor with a timing wheel and an HTTP/1.x server on top of it, and
proves properties of the model. `dafny verify dfyconfig.toml` checks all of it.

The source changes objects step by step, and so does the model: `Buffer`, `HttpContent`, `Connection`, `HttpServer`,
`TimeTaskWheel`, `Poller`, `TaskLoop` and `TcpServer` are classes with the source's fields, loops and branches. Each
method's contract equates the object's value after the call with a function of its value before; the theorems are
about these functions and about all runs of them.

- `Bytes`, `ByteBuffer`: the growable buffer refines a byte queue and stays small.
- `WebUtil`, `UrlText`, `HttpMessage`, `Numerals`, `RequestLine`: splitting, URL coding and what it means, the path check,
  header maps, `std::stol` and what it reads, the request line.
- `HttpContents`, `ParserTheorems`: the resumable parser LINE, HEAD, BODY, OVER or ERR, and its prefix theorem.
- `ConnModel`, `Connections`: one connection with its two buffers on its loop, and the mutual recursion between the
  message callback and Shutdown.
- `Segmentation`, `Delivery`: how TCP cuts the stream does not matter.
- `RoundTrip`, `RawRequests`, `ContentLength`, `Responses`: what is printed, or written by a peer in its own way, is read
  as what it means, or throws; and the octets of a reply.
- `Output`, `Lifecycle`, `Effects`: no octet is lost or reordered, a graceful shutdown is graceful, what releases a
  connection, and what each handler and each dispatch does to it.
- `WheelModel`, `TimerWheel`, `Deadlines`, `TimerRuns`, `TaskTable`: in every run, whatever the ids, the wheel of counted
  references refines a table of tasks and their deadlines.
- `TaskFates`, `TimerContracts`, `IdleTimeout`, `Reenabling`, `Server`: what that means for the tasks of one id, for
  timers under fresh ids, where the table is a map from ids to deadlines, for idle connections, and for the server's ids.
- `EventLoop`: producers and the loop thread as a state machine over their atomic steps, and the poller's and the
  queue's objects.

What the model shows about the code, each point with the lemma that states it:

- "Rejected" is status 400 or more, not the state ERR: a refused request line leaves the state HEAD behind, and the
  code is 400 or 414 by what follows (`RoundTrip.RefusedRequest`, `RoundTrip.RefusedLine`, Http/Http.hpp:722-723).
  Comparing verdicts, not codes, is what makes segmentation independence true.
- `std::stol` throws on a Content-Length that is no numeral in range, also behind a refused request line, and the
  exception leaves the message callback (`ContentLength.ThrowsIff`, `ContentLength.BadLength`). The model has it as the
  event `Threw`, after which the connection is dead, so the theorems hold for every byte stream.
- Shutdown calls the message callback once more, so requests pipelined behind a closing response are still answered
  (`Delivery.ShutDownDelivers`), and, unless a write fails, what is
  accepted is sent before the connection is released (`Output.ClosesGracefully`).
- A header that is there twice keeps its first value (`RoundTrip.RepeatedHeader`). For HEAD the second `SetHeader` of
  Content-Length therefore changes nothing, and an answer ends where its Content-Length says only if the handler left it
  alone or set the right one (`RoundTrip.AnswerFramesIff`).
- `VaildPath` counts "." as a descent. It is exact on paths without ".", and otherwise accepts too much
  (`WebUtil.PathCheck`, `WebUtil.DotHidesAnEscape`).
- `EnableTimeoutDelInLoop` adds a timer even when one is pending, after flushing that one. The tasks then have one id.
  The old ones run at their time unless they were cancelled before, and nothing done afterwards, neither an event nor
  DisableTimeout nor ReleaseInloop nor another timeout, can stop or move them (`TaskFates.LostTaskRuns`,
  `Reenabling.EnableContract`, `Reenabling.OldTimerRuns`, `Reenabling.RunsCancelledIff`); the id leaves the index with
  the first of them, and from then on events no longer renew the timeout (`Reenabling.RenewalLost`). At an input:
  `Reenabling.EnabledTwice`, `Reenabling.DisabledThenEnabled`, `Reenabling.ReleasedButRuns`. Every live task is the one
  tracked under its id exactly as long as no timer is set under an id that `HasTimer` knows (`TimerRuns.FreshOrLost`); a
  connection whose own id is fresh is not affected by others (`TimerContracts.RunFor`). The server's own counter gives
  fresh ids to the timers it sets, on every loop (`Server.LoopsTimersAreFresh`): connections and timers sharing it is no
  source of conflicts, other than the library's README.md:284-285 suggests.
- An eventfd write given up on EINTR can lose a wake-up, exactly when it was the last hope (`EventLoop.LosesIff`,
  `EventLoop.InterruptedWriteLoses`). The input rests on write returning EINTR for a non-blocking eventfd, an errno
  the code guards against (Sever_final/Sever.hpp:600-605) and no kernel is known to return there.
- A read of the eventfd resets its counter, so one read is enough (`EventLoop.QueuedIsRun`), other than the library's
  README.md:287-288 suggests.
- `Release` can be queued twice, within one dispatch (`Lifecycle.ReleasedTwiceIff`, `Lifecycle.ResetReleasesTwice`). A
  second release may remove the map entry of a connection that got the same descriptor (`EventLoop.TakesOwnIff`,
  `EventLoop.SecondReleaseRemovesAnother`); the dispatch theorems include such runs.
- `ShutDownInLoop` overwrites the status even of a released connection, which then accepts output again
  (`Lifecycle.StaysReleasedRunIff`, `Lifecycle.SentAfterRelease`). If it does, its channel is back in the poller's map,
  and a later connection on the same descriptor does not get its own in (`EventLoop.OwnChannelIff`,
  `EventLoop.DeadChannelStays`).

## Model

| member | source | states |
|---|---|---|
| ByteBuffer.Buffer.EnsureWriteSpaceSize | Sever_final/Sever.hpp:113-130 | the three branches (fit, move to the front in place, grow) on the real array: room for `len` octets, the unread octets unchanged |
| ByteBuffer.Buffer.MoveToFront | Sever_final/Sever.hpp:121-124 | the overlapping copy keeps the unread octets in order and leaves the rest of the array alone |
| ByteBuffer.Buffer.Write | Sever_final/Sever.hpp:133-140 | the octets lie at the write position; the queue of unread octets is unchanged; an empty write touches nothing |
| ByteBuffer.Buffer.WriteAndAdd | Sever_final/Sever.hpp:204-208 | the unread octets grow by exactly the written ones, at the end |
| ByteBuffer.Buffer.WriteAsBufferAndAdd | Sever_final/Sever.hpp:191-195 | appends the unread octets of a different buffer, which keeps them |
| ByteBuffer.Buffer.MoveReadPosition | Sever_final/Sever.hpp:107-111 | the first `len` unread octets leave, for any `len` the source's assertion allows |
| ByteBuffer.Buffer.RdStringAndPop | Sever_final/Sever.hpp:216-222 | returns the first `len` unread octets and removes exactly these |
| ByteBuffer.Buffer.FindLineFeed | Sever_final/Sever.hpp:168-172 | the offset of the first line feed among the unread octets, or none if there is none |
| ByteBuffer.Buffer.GetLineAndAdd | Sever_final/Sever.hpp:175-189 | removes and returns the shortest prefix that ends in a line feed, or nothing without one |
| ByteBuffer.Buffer.Clear | Sever_final/Sever.hpp:224-228 | nothing is unread, and the array is kept |
| ByteBuffer.BufferIsAQueue | Sever_final/Sever.hpp:86-228 | under every sequence of writes, reads, line reads and clears, contents and results are those of a byte queue, and read <= write <= size holds |
| ByteBuffer.AppendSize | Sever_final/Sever.hpp:113-130 | one write: the array grows only when more than half of it is then in use |
| ByteBuffer.SpaceBound | Sever_final/Sever.hpp:113-140 | in every run from a new buffer, the array is at most max(1024, twice the peak number of unread octets) |
| WebUtil.Split | Http/Http.hpp:72-102 | the loop appends the pieces of the text to the container; the count is the container's, or 0 for an empty separator |
| WebUtil.SplitDropsEmptyFields | Http/Http.hpp:72-102 | the pieces are the naive fields between separators with the empty ones dropped |
| WebUtil.PiecesOfJoin | Http/Http.hpp:72-102 | splitting undoes joining, for non-empty pieces free of the separator |
| WebUtil.UrlEncode | Http/Http.hpp:161-190 | the loop computes the octet-wise encoding |
| WebUtil.UrlDecode | Http/Http.hpp:208-234 | the loop computes the decoding, cut short at an incomplete escape |
| WebUtil.DecodeOfEncode | Http/Http.hpp:161-234 | decoding undoes encoding for every byte string and both treatments of the space |
| WebUtil.EncodeIsSafe | Http/Http.hpp:161-190 | an encoded text is made of unreserved octets, `%` and `+` only |
| UrlText.DecodeIs | Http/Http.hpp:208-234 | a text decodes to what its tokens stand for: each octet as it is, "+" a space where that is asked for, each escape the value of its two digits by their places in the row of digits; a cut-off escape is dropped |
| UrlText.EveryText | Http/Http.hpp:208-234 | and every text is such a row of tokens |
| UrlText.DecodeOfRaw | Http/Http.hpp:229-231 | without escapes, and without "+" where it is a space, a text stays as it is |
| UrlText.DecodeOfParts | Http/Http.hpp:208-234 | whole tokens decode on their own, whatever follows |
| UrlText.EncodeIs | Http/Http.hpp:161-190 | letters, digits and "-_~." stay, a space is "+" where that is asked for, anything else is an upper-case escape |
| WebUtil.VaildPath | Http/Http.hpp:430-449 | the early-exit loop decides the level rule over the whole path |
| WebUtil.StaysInsideIff | Http/Http.hpp:430-449 | resolving segments on a stack never pops an empty stack if and only if the level rule accepts them without their "." segments |
| WebUtil.PathCheck | Http/Http.hpp:430-449 | the check never rejects a path that stays inside its root, and is exact when no segment is "." |
| WebUtil.PathOkIff | Http/Http.hpp:430-449 | a path is accepted if and only if no first part of its segments goes up more often than it goes anywhere else |
| WebUtil.DotHidesAnEscape | Http/Http.hpp:445-446 | "." counts as a descent, so "/./.." is accepted although it leaves the root |
| RequestLine.GroupsComplete | Http/Http.hpp:663-676 | if the pattern matches a line, the tokenizer returns the groups of the match it prefers: method, the shortest possible path, the query behind the first possible `?`, version |
| RequestLine.GroupsSound | Http/Http.hpp:663-676 | whatever the tokenizer returns are the groups of the preferred match |
| HttpContents.HttpContent.ParseHttpLine | Http/Http.hpp:654-694 | the new context is the specified one: 400 without a match or for a parameter without `=`, otherwise method, path, version and parameters set |
| HttpContents.HttpContent.ReceiveLine | Http/Http.hpp:696-725 | waits, fails with 414, or takes one line; after a line the state is HEAD even when the line was refused |
| HttpContents.HttpContent.ParseHttpHead | Http/Http.hpp:770-789 | splits at the first ": ", keeps the first value of a repeated key, refuses a line without it |
| HttpContents.HttpContent.ReceiveHead | Http/Http.hpp:727-768 | the loop takes lines up to the blank one, the first bad line, or the end of the complete lines |
| HttpContents.HttpContent.ReceiveBody | Http/Http.hpp:791-837 | takes what is missing of the declared length, and no more than is there |
| HttpContents.HttpContent.ReceiveRequest | Http/Http.hpp:880-895 | the three stages with their fall-through; buffer, context and the exception of std::stol as specified |
| HttpContents.HttpContent.Reset | Http/Http.hpp:842-847 | a fresh context, with the version set to HTTP/1.1 |
| ParserTheorems.LinePrefix | Http/Http.hpp:696-725 | the request-line stage: a failure or a finished line does not depend on later input; otherwise nothing was consumed |
| ParserTheorems.HeadPrefix | Http/Http.hpp:727-768 | the header stage: a failure stands, a finished block leaves later input unread, otherwise the stage resumes where it stopped |
| ParserTheorems.BodyPrefix | Http/Http.hpp:791-837 | the same for the body stage |
| ParserTheorems.PrefixTheorem | Http/Http.hpp:880-895 | for every x and y: if x is rejected so is x++y; if x completes a request x++y completes the same one with y left over; otherwise feeding x then y equals feeding x++y |
| ParserTheorems.WaitingState | Http/Http.hpp:696-837 | after a call that neither failed nor completed: no line feed and at most 8192 octets unread, or none unread and the body short; a completed request consumed at least one octet |
| ConnModel.OnMessage | Http/Http.hpp:1057-1107 | terminates, because every turn and every nested call finds less unread input, and leaves the parser waiting |
| ConnModel.ShutDown | Sever_final/Sever.hpp:1287-1304 | terminates together with the message callback it calls, for any unread input |
| ConnModel.HandleRead | Sever_final/Sever.hpp:1185-1200 | whatever arrives, the parser has taken all it can when the handler returns |
| ConnModel.Run | Sever_final/Sever.hpp:1156-1423 | every run of handlers, timer callbacks and queued releases keeps the parser between calls |
| Connections.Connection.SendInLoop | Sever_final/Sever.hpp:1276-1285 | the octets join the output buffer and ask for EPOLLOUT, unless the connection is disconnected |
| Connections.Connection.Send | Sever_final/Sever.hpp:1378-1383 | the same through a temporary buffer |
| Connections.Connection.ShutDownInLoop | Sever_final/Sever.hpp:1287-1304 | the new state is the specified one, through the nested message callback |
| Connections.Connection.HanderRead | Sever_final/Sever.hpp:1185-1200 | the new state is the specified one, and the input array stays within 139261 octets |
| Connections.Connection.HanderWrite | Sever_final/Sever.hpp:1202-1224 | what the socket took leaves the output; an emptied buffer drops EPOLLOUT and releases a closing connection |
| Connections.Connection.HanderClose | Sever_final/Sever.hpp:1226-1234 | a last message callback for unread input, then a release |
| Connections.Connection.Release | Sever_final/Sever.hpp:1373-1377 | queues ReleaseInloop behind what is queued already, wakes the loop, and touches neither the poller nor the connection |
| Connections.Connection.HanderEvent | Sever_final/Sever.hpp:747-779 | one dispatch makes the callbacks its event bits ask for and, unless one threw, the event callback; every entry of the poller's map is unchanged and only releases are queued |
| Connections.Connection.EventCallback | Sever_final/Sever.hpp:1241-1249 | with the timeout enabled, the timer is flushed |
| Connections.Connection.EnableTimeoutDelInLoop | Sever_final/Sever.hpp:1306-1315 | a flush where HasTimer knows the id, and then a new timer all the same |
| Connections.Connection.DisableTimeoutDelInLoop | Sever_final/Sever.hpp:1327-1334 | the timer HasTimer knows is cancelled |
| Connections.Connection.ReleaseInloop | Sever_final/Sever.hpp:1251-1258 | the status, the descriptor out of the poller, and the timer HasTimer knows cancelled |
| Connections.InputFits | Sever_final/Sever.hpp:1185-1194 | one read of at most 65535 octets on top of a waiting parser's input keeps the array within 139261 octets |
| Connections.HttpServer.Refuse | Http/Http.hpp:1069-1077 | the error page is sent, the parser reset and the unread input dropped |
| Connections.HttpServer.Respond | Http/Http.hpp:1085-1101 | the completed request is answered and the parser reset; the response decides about closing |
| Connections.HttpServer.Turn | Http/Http.hpp:1061-1106 | one turn of the loop: finished, or less unread input with the same outcome ahead |
| Connections.HttpServer.OnMessage | Http/Http.hpp:1057-1107 | the loop over the two real buffers ends in the specified state, and the mutual recursion with ShutDownInLoop terminates |
| Segmentation.OneCut | Http/Http.hpp:1057-1107 | one cut of the input anywhere: the same deliveries up to the first failure, and the same parser and unread input without one |
| Segmentation.AnyCuts | Http/Http.hpp:1057-1107 | segmentation independence: reads of any sizes deliver the requests that the whole stream delivers, and without a failure leave the same parser and remainder |
| Segmentation.FailureStays | Http/Http.hpp:1069-1077 | after a failure later reads no longer change the verdict |
| Segmentation.IdleCallback | Sever_final/Sever.hpp:1226-1234 | calling the callback again without new input changes nothing |
| Delivery.CallbackDelivers | Http/Http.hpp:1057-1107 | with replies, closing and nested shutdowns included, the callback delivers what the plain delivery loop does and accepts the replies in order |
| Delivery.ShutDownDelivers | Sever_final/Sever.hpp:1287-1304 | Shutdown delivers the unread requests in the same way |
| Delivery.RunDelivers | Sever_final/Sever.hpp:1185-1304 | in every interleaving of handlers the connection delivers what its reads deliver |
| Delivery.SegmentationIndependence | Http/Http.hpp:1057-1107 | two runs that read the same octets, cut differently and mixed with any other handlers, deliver the same requests up to the first failure, end alike without one, and accept the replies in request order |
| Output.OutputConservation | Sever_final/Sever.hpp:1202-1224 | in every state of every run, accepted octets are the sent ones followed by the output buffer, and waiting output has EPOLLOUT set |
| Output.CallbackQueuesNoRelease | Sever_final/Sever.hpp:1287-1304 | while output is accepted the message callback itself queues no release |
| Output.DrainRun | Sever_final/Sever.hpp:1202-1224 | after Shutdown, in any run where nothing more is accepted and nothing else releases, each write that takes something shortens the output until a release is queued |
| Output.GracefulShutdown | Sever_final/Sever.hpp:1287-1304 | after Shutdown, also one called with complete requests unread, if nothing more is accepted a release is queued or run only when every accepted octet was sent, and is queued after at most as many successful writes as octets waited |
| Output.CallbackDrains | Http/Http.hpp:1057-1107 | a message callback that closes the connection, at a refused request or one that asks for it, with more requests behind it or none, leaves it draining: no release yet, or nothing left to send |
| Output.ClosesGracefully | Http/Http.hpp:1069-1105 | so in every run, whatever act closes the connection, be it a read in whose middle the server does or a Shutdown: the same two promises from there on |
| Output.RunGrows | Sever_final/Sever.hpp:1276-1285 | what was accepted for sending is never taken back, and a closing connection stays closing, in any run |
| Effects.CallbackIs | Http/Http.hpp:1057-1107 | all fields of a connection after the message callback, whatever its status and its unread input, by what the plain delivery loop finds there |
| Effects.ShutDownIs | Sever_final/Sever.hpp:1287-1304 | the same of Shutdown |
| Effects.ReadIs | Sever_final/Sever.hpp:1185-1200 | all fields after a read: what arrived is worked on at once, or, where recv fails, the connection is shut down |
| Effects.WriteIs | Sever_final/Sever.hpp:1202-1224 | all fields after a write: sent grows by what send took and output shrinks by it; emptied, EPOLLOUT goes and a closing connection is released |
| Effects.CloseIs | Sever_final/Sever.hpp:1226-1234 | all fields after HanderClose, with whatever is unread |
| Effects.OtherActsAre | Sever_final/Sever.hpp:1226-1285 | all fields after a hang-up, a fired timer, a shutdown, a queued release and a Send |
| Effects.DispatchWithoutInput | Sever_final/Sever.hpp:756-776 | by the event bits: output is written, and only without it a hang-up or an error queues one release, sent and output unchanged |
| Effects.DispatchWithInput | Sever_final/Sever.hpp:747-776 | with an input bit, what recv returns is delivered and answered first, and unless that throws the rest follows as without it |
| Effects.ReleaseRuns | Sever_final/Sever.hpp:1251-1278 | a queued release that runs leaves the connection DISCONNECTED, and a Send after it changes nothing |
| Effects.ReleaseStands | Sever_final/Sever.hpp:1251-1278 | and as long as no failed read, shutdown or closing input comes, nothing is accepted any more |
| Effects.AlwaysInterested | Sever_final/Sever.hpp:1202-1285 | in every run in which no empty text is sent, EPOLLOUT is asked for exactly while output waits |
| Effects.EmptySend | Sever_final/Sever.hpp:1280-1284 | at an input: an empty text asks for EPOLLOUT with nothing to send, until the next write |
| Numerals.StolThrowsIff | Http/Http.hpp:530-539 | std::stol throws exactly on texts that are not spaces, a sign, digits and then no digit, with a value a 64-bit long holds |
| Numerals.BodySizeIff | Http/Http.hpp:530-539 | the body length is 0 without a Content-Length, and otherwise the value of its numeral as an unsigned 64-bit number |
| Numerals.LengthReadBack | Http/Http.hpp:530-539 | a printed length is read back by std::stol, for every length a 64-bit long holds |
| Numerals.NumbersAtInputs | Http/Http.hpp:530-539 | at inputs: base ten, most significant digit first, spaces and a sign before, anything behind |
| RawRequests.PatternWords | Http/Http.hpp:663-663 | the pattern takes exactly five methods and two versions, in any case, the six blanks, and three line ends |
| RawRequests.RawLineReceived | Http/Http.hpp:654-694 | a request line as a peer writes it: the method arrives in capitals, the version as it stands, the path decoded without and the parameters with the rule for "+", of each key the first value, a value up to the next "&" |
| RawRequests.RawPathKept | Http/Http.hpp:675-675 | a path without escapes is received as it is written |
| RawRequests.RawBlockRead | Http/Http.hpp:727-789 | header lines ended by CRLF or a line feed alone are stored one after the other, of each name the first value, whatever follows |
| RawRequests.EmptyLineEnds | Http/Http.hpp:754-757 | an empty line, ended either way, ends the header block |
| RawRequests.BadFieldFails | Http/Http.hpp:770-784 | a header line without ": " is a bad request, 400, and what follows is not looked at |
| RawRequests.LongFieldFails | Http/Http.hpp:746-753 | a header line longer than 8192 octets is 414 |
| RawRequests.UnfinishedField | Http/Http.hpp:733-745 | the beginning of one is 414 beyond 8192 octets, and otherwise waits |
| RawRequests.LongLineFails | Http/Http.hpp:713-721 | a request line longer than 8192 octets is 414, and what follows stays unread |
| RawRequests.UnfinishedLine | Http/Http.hpp:696-712 | the beginning of one is 414 beyond 8192 octets, and otherwise waits |
| RawRequests.RawRequestReceived | Http/Http.hpp:880-895 | a whole request as a peer writes it is received as what it means, once the body it declares is there, with all that follows unread |
| RawRequests.RawPipeline | Http/Http.hpp:1057-1107 | any such requests in any portions, mixed with any handlers, are delivered as what they mean and answered in order |
| RawRequests.AtAnInput | Http/Http.hpp:880-895 | at an input: the 19 octets of the smallest GET are received as such |
| Responses.CompletedHeaders | Http/Http.hpp:917-942 | a response keeps what its handler set, and gets Connection, Content-Length, the type of a non-empty body and the place of a redirect where it set none |
| Responses.AnswerIs | Http/Http.hpp:1085-1096 | the answer to a request: its handler's status and headers, the defaults, and the body, none for HEAD |
| Responses.ErrorAnswerIs | Http/Http.hpp:908-915 | the answer to a refused request: the code of the refusal, and the error page as text/html with its length |
| Responses.ReplyIs | Http/Http.hpp:945-954 | the octets of a reply: version, status, description, the header lines, the empty line and the body |
| Responses.RefusalIs | Http/Http.hpp:1069-1077 | the octets of the reply to a refused request, likewise |
| Responses.ClosesAsAsked | Http/Http.hpp:917-926 | a connection is kept after an answer exactly where the handler or, if it sets no Connection, the request says keep-alive |
| RoundTrip.HeaderBlockRoundTrip | Http/Http.hpp:946-950 | a header map printed in any order and closed by the blank line is read back as the same map, whatever follows |
| RoundTrip.RepeatedHeader | Http/Http.hpp:483-486 | of a header that is there more than once the first value is kept |
| RoundTrip.RefusedIff | Http/Http.hpp:654-694 | a request line is refused if and only if the pattern does not match it or a parameter has no `=` |
| RoundTrip.RefusedRequest | Http/Http.hpp:722-768 | a refused line, whatever follows: the request fails, with 414 where the header stage, which goes on, meets something too long before a blank or bad line, else with 400 |
| RoundTrip.RefusedLine | Http/Http.hpp:722-745 | with no complete line after a mismatch, the state is HEAD with 400 or, beyond 8192 octets, ERR with 414 |
| RoundTrip.QueryRoundTrip | Http/Http.hpp:676-691 | a parameter map printed as encoded `k=v` joined by `&` is recovered exactly |
| RoundTrip.LineMatches | Http/Http.hpp:654-676 | a printed request line is one line, and is matched with its own parts |
| RoundTrip.RequestRoundTrip | Http/Http.hpp:880-895 | a printed request is received as that request, with all that follows left unread |
| RoundTrip.FramedReceived | Http/Http.hpp:791-837 | so is one without a body and a Content-Length, or with a body and the length of it |
| RoundTrip.PipelineRoundTrip | Http/Http.hpp:1057-1107 | a pipeline of printed requests in any portions, mixed with any handlers, is delivered request by request and answered in order |
| RoundTrip.ResponseFramesIff | Http/Http.hpp:917-954 | a printed response is read back as its headers and its body, and ends there, if and only if its final Content-Length is the length of its body |
| RoundTrip.AnswerFramesIff | Http/Http.hpp:1085-1096 | the answer to any request, HEAD included, is read back and ends there if and only if its handler set no Content-Length of its own or that of the body that is sent; the header is never corrected |
| RoundTrip.DefaultLengthFits | Http/Http.hpp:931-934 | which it is where the handler sets no Content-Length of its own |
| Lifecycle.ClosesConnection | Http/Http.hpp:1085-1105 | a completed request that is the last of the input shuts the connection down if and only if the handler, or else the request, asked for it; asked for, it does whatever follows |
| Lifecycle.WireOrder | Sever_final/Sever.hpp:1202-1224 | in a run without failure that sends only replies, sent ++ waiting is what was before ++ the replies to the whole stream in request order; what the peer got is a prefix |
| Lifecycle.ReleasesQueued | Sever_final/Sever.hpp:1202-1304 | by the state before it, each act queues one release exactly in the listed cases, and otherwise none |
| Lifecycle.ReleasedReleases | Http/Http.hpp:1057-1107 | input read by a released connection, whose replies are not accepted, queues one release if and only if no output waits and the first request that closes is the last of all |
| Lifecycle.ReleasedTwiceIff | Sever_final/Sever.hpp:747-779 | one dispatch queues two releases if and only if it reads, that queues one, as a failed recv does with no output waiting, and output, a hang-up or an error is reported too |
| Lifecycle.ResetReleasesTwice | Sever_final/Sever.hpp:747-779 | at an input: a peer that resets a connection with nothing left to send |
| Lifecycle.ShutDownDisconnects | Sever_final/Sever.hpp:1287-1290 | ShutDownInLoop overwrites every status |
| Lifecycle.StaysReleasedIff | Sever_final/Sever.hpp:1185-1304 | a released connection stays released in one act if and only if that is no failed read, no shutdown, and no input with a request refused or asking to close; and then it accepts nothing |
| Lifecycle.StaysReleasedRunIff | Sever_final/Sever.hpp:1185-1304 | the same of whole runs, by the acts and what the parser makes of their reads |
| Lifecycle.ReleasedAcceptsNothing | Sever_final/Sever.hpp:1276-1285 | as long as it stays released, a connection accepts nothing for sending |
| Lifecycle.SentAfterRelease | Sever_final/Sever.hpp:1276-1290 | at an input: a released connection that is shut down accepts output again |
| ContentLength.ThrowsIff | Http/Http.hpp:722-797 | after any request line, matched or refused, a printed header block makes the parser throw exactly when its Content-Length is no such text |
| ContentLength.RequestThrowsIff | Http/Http.hpp:791-797 | so it does on a whole printed request, whatever follows |
| ContentLength.BadLength | Http/Http.hpp:538-538 | the failing input: GET with `Content-Length: x`, whatever follows it |
| TimerWheel.TimeTaskWheel.SetTimeTask | Sever_final/Sever.hpp:791-798 | a new task with one reference in the slot of its delay, tracked under the id |
| TimerWheel.TimeTaskWheel.FlushTimeTask | Sever_final/Sever.hpp:800-811 | a second reference to the same task at its full delay; the weak pointer can always be locked; unknown ids change nothing |
| TimerWheel.TimeTaskWheel.RemoveTimeTask | Sever_final/Sever.hpp:819-831 | only the flag changes |
| TimerWheel.TimeTaskWheel.ReleaseRef | Sever_final/Sever.hpp:447-474 | the last reference runs an uncancelled callback and erases the index entry of its id; any other only counts down |
| TimerWheel.TimeTaskWheel.RunTimer | Sever_final/Sever.hpp:813-817 | the loop destroys the next slot's references in order |
| TimerWheel.TimeTaskWheel.HasTimer | Sever_final/Sever.hpp:546-554 | true exactly while some slot holds the id's task, when ids were fresh |
| WheelModel.SetSound | Sever_final/Sever.hpp:791-798 | set keeps every count equal to the references in the slots and every tracked pointer lockable, even for an id in use |
| WheelModel.DropSound | Sever_final/Sever.hpp:459-464 | so does the end of one reference |
| WheelModel.SetSlotIs | Sever_final/Sever.hpp:796-796 | the slot that set chooses for any 64-bit delay, by its two halves |
| WheelModel.FlushSlotIs | Sever_final/Sever.hpp:808-809 | the slot that flush chooses for it as an int, and when that is defined |
| Deadlines.Effective | Sever_final/Sever.hpp:796-797 | the delay the wheel keeps: between 1 and 60, congruent to the delay modulo 60, and the delay itself from 1 to 60 |
| Deadlines.LastIsDue | Sever_final/Sever.hpp:813-817 | the last reference of a task is dropped exactly at its deadline |
| TimerRuns.StepSound | Sever_final/Sever.hpp:447-474 | in every run, fresh ids or not, counts are right and flush never locks a dead pointer |
| TimerRuns.DrainOrder | Sever_final/Sever.hpp:813-817 | the callbacks of one tick run in the order in which the slot holds the last references to their tasks |
| TimerRuns.IndexIff | Sever_final/Sever.hpp:524-531 | an id is in the index if and only if some slot holds its task, when every live task is tracked |
| TimerRuns.FreshOrLost | Sever_final/Sever.hpp:791-798 | set keeps every live task tracked if and only if the id was not in the index |
| TaskTable.SetRecorded | Sever_final/Sever.hpp:791-798 | under any id, set is a new task with the deadline now + effective delay, which takes the index entry |
| TaskTable.FlushRecorded | Sever_final/Sever.hpp:800-811 | flush moves the deadline of the task in the index to now + effective delay, and of no other |
| TaskTable.CancelRecorded | Sever_final/Sever.hpp:819-831 | cancel flags the task in the index, and no other; the deadline is kept |
| TaskTable.DropLast | Sever_final/Sever.hpp:459-474 | a task goes exactly at its deadline, and then the entry of its id leaves the index, also where that is another task |
| TaskTable.TickRecorded | Sever_final/Sever.hpp:813-817 | one run_timer call ends exactly the tasks whose deadline has come, in whatever order their references lie in the slot |
| TaskTable.EveryRunRecorded | Sever_final/Sever.hpp:447-555 | in every run of set, flush, cancel and tick, under whatever ids, the wheel is the table of tasks and deadlines: same index, same live tasks and flags, and as many callbacks of an id in a run_timer call as tasks of that id end then uncancelled |
| TaskFates.LostTaskRuns | Sever_final/Sever.hpp:791-831 | in any state of any run, a live task that is not in the index is beyond all reach: whatever is done, also under its own id, it lives until its deadline, keeps its flag, and runs then unless cancelled |
| TaskFates.FateIs | Sever_final/Sever.hpp:791-831 | the task in the index follows the flushes and cancels of its id until it ends, another task of the id ends, or a new one is set, and then keeps the deadline and the flag it has |
| TaskFates.IdContract | Sever_final/Sever.hpp:447-555 | all callbacks of one id from any state of any run on, until it is set again: those of its lost tasks at their deadlines and that of the task in the index at the end of its fate; and the id leaves the index with the first of them |
| TimerContracts.RunFor | Sever_final/Sever.hpp:447-555 | for one id alone: in every run in which HasTimer is false of that id whenever it is set, whatever is done with other ids, the wheel does with it what the map of deadlines does |
| TimerContracts.SetContract | Sever_final/Sever.hpp:791-817 | left alone, a timer's callback runs exactly once, at set + effective delay, when its id leaves the index |
| TimerContracts.FlushContract | Sever_final/Sever.hpp:800-817 | after a flush it runs exactly once, at flush + effective delay, unless cancelled |
| TimerContracts.CancelContract | Sever_final/Sever.hpp:819-831 | a cancelled timer never runs, whatever else happens, until its id is set again |
| TimerContracts.CancelledInTime | Sever_final/Sever.hpp:819-831 | a timer cancelled before its deadline never runs, and its id leaves the index at that deadline all the same |
| TimerContracts.ReachedAfter | Sever_final/Sever.hpp:447-555 | these contracts can be chained: after any further run in which the id is fresh they apply again |
| TimerContracts.WheelRefines | Sever_final/Sever.hpp:447-555 | over every run with fresh ids the wheel is a map from ids to deadlines: same ids known, each tracked at its deadline, same callbacks at the same ticks |
| Reenabling.EnableContract | Sever_final/Sever.hpp:1306-1315 | in any state of any run, also with several tasks of the id pending, and with any flushes and cancels after it: the new task meets its fate, each task that was pending runs at its time unless it was cancelled before, and the id leaves the index with the first of them |
| Reenabling.PendingIs | Sever_final/Sever.hpp:1309-1312 | these are all live tasks of the id: the one in the index due its delay from now, the others when they were due |
| Reenabling.OldTimerRuns | Sever_final/Sever.hpp:1306-1315 | nothing done afterwards, no event, no DisableTimeout, no ReleaseInloop and no timeout enabled yet again, can stop or move any of them |
| Reenabling.RunsOnceIff | Sever_final/Sever.hpp:1306-1315 | with all deadlines past, the callback ran exactly once, at the new task's deadline, if and only if exactly one of all the tasks is uncancelled, and due then |
| Reenabling.RunsCancelledIff | Sever_final/Sever.hpp:1251-1262 | a timeout cancelled, as DisableTimeout and ReleaseInloop do, in any state of any run, still runs its callback if and only if a task of its id outside the index is not cancelled |
| Reenabling.OutOfReach | Sever_final/Sever.hpp:800-831 | once an id has left the index, flushes and cancels for it have no effect at all |
| Reenabling.RenewalLost | Sever_final/Sever.hpp:1306-1315 | from then on each task of it that still lives runs at the deadline it has, and the id stays out of the index |
| Reenabling.EnabledTwice | Sever_final/Sever.hpp:1306-1315 | at an input: enabled for 2, a second later for 5; the callback runs at 3 and, in spite of an event at 3, at 6 |
| Reenabling.DisabledThenEnabled | Sever_final/Sever.hpp:1306-1333 | at an input: enabled for 2, disabled, enabled for 5; in spite of an event at 2 the callback runs at 5 |
| Reenabling.ReleasedButRuns | Sever_final/Sever.hpp:1251-1262 | at an input: enabled for 2, a second later for 5 and then released; the callback runs at 3 |
| EventLoop.Poller.UpdateEvent | Sever_final/Sever.hpp:397-407 | a new descriptor enters the map whether or not epoll_ctl succeeds; a known one keeps its channel |
| EventLoop.Poller.RemoveEvent | Sever_final/Sever.hpp:409-418 | the descriptor leaves the map and epoll |
| EventLoop.Poller.Poll | Sever_final/Sever.hpp:420-440 | the loop returns the registered channel of each ready descriptor, in order |
| EventLoop.TaskLoop.QueueInLoop | Sever_final/Sever.hpp:657-664 | the task is the last of the queue and the counter positive |
| EventLoop.TaskLoop.RunAllTask | Sever_final/Sever.hpp:621-632 | the batch is the whole queue, run in order, each task once; all that arrives meanwhile, from a task or from any thread, waits in order for the next round |
| EventLoop.StepFifo | Sever_final/Sever.hpp:621-664 | every step keeps enqueued == executed ++ batch ++ queue |
| EventLoop.HandlerRuns | Sever_final/Sever.hpp:634-646 | a handler that does what the connection's contracts say is a run of the loop thread's steps, after which each channel still to be dispatched is registered |
| EventLoop.StepRegistered | Sever_final/Sever.hpp:409-440 | every step keeps the watched descriptors in the map and each channel about to be dispatched registered |
| EventLoop.EveryRun | Sever_final/Sever.hpp:581-664 | in every interleaving of producers and the loop: exactly-once FIFO, no failed lookup in Poll, no dispatch to a removed channel |
| EventLoop.CounterFits | Sever_final/Sever.hpp:596-609 | in every run the counter of the eventfd stays a value it can hold |
| EventLoop.LosesIff | Sever_final/Sever.hpp:596-609 | a step loses the wake-up if and only if it gives up, on EINTR, the last write to come, with tasks queued, the counter zero and no swap due before epoll_wait |
| EventLoop.NoLostWakeUpIff | Sever_final/Sever.hpp:596-664 | in every interleaving, a queue that is not empty is always matched by a positive counter or a write still to come if and only if no step is such a write |
| EventLoop.InterruptedWriteLoses | Sever_final/Sever.hpp:600-605 | the failing input: one push whose write is interrupted |
| EventLoop.QueuedIsRun | Sever_final/Sever.hpp:634-646 | from any such state at epoll_wait, one round woken by the eventfd is possible and executes all that was enqueued |
| EventLoop.InterruptedReadIsSeenAgain | Sever_final/Sever.hpp:581-594 | an interrupted read of the eventfd leaves it readable, and the round executes all that is queued all the same |
| EventLoop.ExecutedByNextRound | Sever_final/Sever.hpp:634-664 | in every run, whatever was enqueued before a swap has been executed when the loop is back at epoll_wait |
| EventLoop.TakesOwnIff | Sever_final/Sever.hpp:409-418 | in every run, no release takes another channel out of the map if and only if each finds its descriptor registered for its own channel, or not at all |
| EventLoop.OwnChannelIff | Sever_final/Sever.hpp:397-407 | a new connection has its own channel in the map, until a release of its descriptor, if and only if the descriptor was not in the map before |
| EventLoop.WatchedIff | Sever_final/Sever.hpp:397-407 | a registered descriptor is watched by epoll, until it is closed or released, if and only if it was before or it was new and epoll_ctl succeeded |
| EventLoop.ClosedIsNotReported | Sever_final/Sever.hpp:409-440 | what the kernel closes is no longer reported, while the map keeps the entry |
| EventLoop.DeadChannelStays | Sever_final/Sever.hpp:397-407 | the failing input: a released connection that sends again leaves its channel in the map, and the next connection on the descriptor gets neither its channel there nor its descriptor into epoll |
| EventLoop.SecondReleaseRemovesAnother | Sever_final/Sever.hpp:1251-1262 | the failing input: released twice, the close callback of the first release having registered the descriptor anew |
| IdleTimeout.ReleasedWhenIdle | Sever_final/Sever.hpp:1241-1249 | with its timeout enabled and nothing else releasing it, a connection is released exactly `sec` ticks after the later of enabling and the last dispatched event |
| IdleTimeout.NotAfterRelease | Sever_final/Sever.hpp:1251-1262 | where no timer was set under the connection's id while HasTimer knew it, the callback never runs once ReleaseInloop has; `Reenabling.RunsCancelledIff` is the other case |
| IdleTimeout.DisabledIsOver | Sever_final/Sever.hpp:1327-1334 | nor does it once DisableTimeout has, and until the timeout is enabled again no event makes a wheel call |
| IdleTimeout.ReleaseSwitchesOff | Sever_final/Sever.hpp:1251-1257 | ReleaseInloop switches the timeout off where HasTimer knows the timer, and leaves it as it is elsewhere |
| Server.IncreasingIsFresh | Sever_final/Sever.hpp:1466-1485 | timers set under ids that only go up are always set under fresh ids |
| Server.ServerIdsAreFresh | Sever_final/Sever.hpp:1466-1485 | a wheel used with the server's ids alone meets the condition of the refinement |
| Server.LoopsTimersAreFresh | Sever_final/Sever.hpp:1466-1485 | so does the wheel of one loop, which gets some of the server's timers, in order, mixed with any other calls |
| Server.TcpServer.NewConnection | Sever_final/Sever.hpp:1466-1480 | the id is used by no connection and no timer before, so the insertion takes effect |
| Server.TcpServer.RunAfterInLoop | Sever_final/Sever.hpp:1481-1485 | the timer's id is no connection's and no earlier timer's |

## Left out

- `std::regex` for the request line: a tokenizer stands for it, proved to return exactly the groups of the match the
  pattern prefers; letters are compared without case as in the C locale.
- Routes, handlers, static files, the error page, status descriptions and the iteration order of hash maps are one abstract
  `Service`; a handler is a function of the request.
- System calls: recv, send, epoll_wait, epoll_ctl, read and write of the eventfd are parameters or steps with the
  outcomes after which the code goes on; those on which it aborts, and a stale `errno`, are not modelled.
- Handlers other than a connection's: those of the eventfd, the timerfd and the acceptor, and the callbacks a user sets,
  are assumed to remove no channel during a dispatch; a user has no other way to remove one than `Release`.
- Connections.Connection.HanderEvent: the event callback a user sets is not part of it, only the timer flush before that.
- Connections.Connection.EventCallback: likewise, it is the flush alone.
- Connections.Connection.ReleaseInloop: closing the socket, the close callback of a user and the removal from the server's
  map, which `Server.TcpServer` models apart, are not part of it.
- `shared_ptr` and `weak_ptr` to tasks are handles into a map of tasks with their counts; the task objects are values
  in that map, and the vectors of pointers are sequences.
- TaskTable.SetRecorded: is about delays up to INT_MAX - 59, like all results about runs of the wheel; beyond, set and
  flush compute their slots in different widths (`WheelModel.SetSlotIs`, `WheelModel.FlushSlotIs`), and flush is undefined
  where its sum overflows or, mostly, is negative.
- TimerWheel.TimeTaskWheel.FlushTimeTask: has that definedness as its precondition.
- Time is counted in calls of `run_timer`; the expiration count read from the timerfd is ignored by the source too.
- Timer callbacks are entries of a log; the source's only queue a release or run user code.
- ByteBuffer.Buffer.WriteAsBufferAndAdd: appending a buffer to itself is excluded; the source never does it.
- Calling `EnsureWriteSpaceSize` without writing can grow the array without bound; the space bound is about writes.
- Unsigned 64-bit wrap-around of buffer sizes, connection ids and counters, except for Content-Length and delays.
- `EstablishedInLoop`, `ChangeProtocal`, the connection callbacks of a user, and `CONNECTED`, which nothing assigns.
- `LoopThread`, `LoopThreadPool`, `Acceptor`, `Any`, logging, the lookup tables of status texts and MIME types, and the
  earlier copies of the components under `source/` and `example/`.
