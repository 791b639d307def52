# Verification of the astrologer servers and proxies

The repository implements a small line protocol over TCP twice, once with the UNIX socket API
and once with Boost.Asio. Stars set the prognosis of a zodiac (`STARS SAY <zodiac>`, then a line),
ordinary clients ask for it (`HOROSCOPE <zodiac>`), and a proxy is to keep stars away from the
server. This project models both servers and both proxies in Dafny and proves what they do over
whole runs.

| file | module | what it models |
|---|---|---|
| Wire.dfy | Wire | request kinds, zodiac names, delimiters, the clients' printing of requests |
| LineSpec.dfy | LineSpec | the input language, one line at a time, as a function of the whole stream |
| Machine.dfy | Machine | one connection as a machine over recv chunks and partial sends |
| Runs.dfy | Runs | any interleaving of any number of connections over one book of prognoses |
| Timing.dfy | Timing | when the connections of a timed run have entered their phases |
| Heaps.dfy | Heaps | the intrusive binary heap, in place over an array of records |
| Records.dfy | Records | the connection record with its two 81-byte buffers and positions |
| Shared.dfy | Shared | the prognosis table overwritten in place, and the clock |
| Engines.dfy | Engines | the handlers and the loop of `update_state` |
| EventLoops.dfy | EventLoops | accepting, serving, expiring, shutting down, the event loop |
| UnixProxy.dfy | UnixProxy | `recv_line`, `send_all`, the UNIX proxy with its clients and its server, and the proxy in front of the server of this model |
| BoostServer.dfy | BoostServer | the Boost server connection and its handlers |
| BoostProxy.dfy | BoostProxy | the Boost proxy connection and its handlers |
| BoostLink.dfy | BoostLink | the Boost proxy in front of the Boost server, step by step, among other connections of the server |

The UNIX server is proved in three layers. The classes `Connection`, `Heap`, `Table`, `Engine` and
`Server` work on buffers, positions and pointers as the C code does. Every method that handles a
connection is proved to do what the functions of `Machine` do to its abstract state
(`Connection.View`, `Table.book`), and `Server.Valid` says that between events the server is in the
state that the run recorded so far leads to (`Runs.Run(trace)`). The lemmas of `Runs` are about all
such runs, and compare them with `LineSpec`, which knows nothing of chunks. So what is proved of
runs holds of the server (`ServedFaithfully`, `TableIsLatest`). Every event of the run carries the
time at which it ended, and `Valid` also says that every deadline counts from the last phase entry of
the timed run (`DeadlineIsPhaseEntry`).

Results of system calls (bytes received, bytes accepted, failures, times, epoll reports) are
parameters or are chosen arbitrarily, and what they were is recorded (`Poll.rounds`, `Socket.history`,
`Connection.tally`), so that the results can speak of it; nothing is assumed of them beyond the size of a recv, that
the clock does not go back, that epoll reports registered connections at most once per batch, and
that deleting an epoll registration succeeds. Where a proxy is put in front of a server, bytes arrive
in the order in which they were sent (`UnixProxy.FromServer`, `BoostLink.Link`).

## Where the code does not do what one would expect

- `update_state` need not return. Its loop looks only at the direction and at the intermediate
  buffer, so a connection that fails with bytes still buffered keeps it looping for ever. `X`, a
  line feed and one more byte in one chunk are enough (`Machine.StallExample`). `LoopEnds`,
  `UpdateReturns` and `ServeReady` say exactly when this happens: when the bytes at hand hold a
  malformed request that is not the last thing in them. `Status.Hung` and `World.hung` stand for
  it, and the results about the event loop say what they say for the other case.
- A star's or client's bytes are taken in pieces of at most 80; a line of more than 80 bytes,
  delimiter included, is refused once 80 of them are there.
- The comparison callback of the heap is called `less_ts` and compares with `>=`; the heap is
  nevertheless ordered by earliest deadline first.
- `handle_send_request` of the UNIX proxy overwrites the error state after a failed send. With a
  server that answers line by line nothing can be received then, so the child still ends there
  (`HandleSendRequest` leaves `HalfSent`, and `HandleRecvReply` then ends with the server error).
- `recv_line` returns 0 at end of stream even in the middle of a line, and it refuses a chunk in which
  anything follows a line.
- The Boost connections use one buffer for reading and writing. A response goes behind whatever a
  pipelining client has left in the buffer, and that is sent back too, and never served
  (`BoostServer.EchoExample`). The responses alone are sent exactly when nothing follows a request in
  the buffer (`BoostServer.OnlyResponses`). The link between proxy and server is not affected.

## Model

| member | source | states |
|---|---|---|
| Wire.FindZodiac | unix_socket_api/generic/generic.c:33-47 | the search returns the zodiac whose name the text begins with, or -1 if there is none |
| Wire.ZodiacUnique | unix_socket_api/generic/generic.c:30-31 | at most one zodiac name matches, so the order of the table does not matter |
| Wire.PrintParses | unix_socket_api/src/client.c:40-50 | a printed request is classified as what was printed, whatever the padding |
| Wire.UnderstoodIsPrinted | unix_socket_api/src/astrolog.c:343-356 | a line is understood as a request for a zodiac if and only if it is a printed request for it with some padding |
| Wire.BuildRequest | unix_socket_api/src/client.c:103-113 | the buffer built piece by piece holds the printed request and no more |
| LineSpec.PrintedIsRead | unix_socket_api/src/client.c:40-50 | a printed request that fits 80 bytes is read back whole, and nothing behind it is touched |
| LineSpec.ParseExtends | unix_socket_api/src/astrolog.c:320-403 | bytes that come later never change a request already read, and an unfinished one resumes from its partial line |
| LineSpec.MeaningExtends | unix_socket_api/src/astrolog.c:320-403 | the meaning of a stream is compositional, and malformed input stays malformed |
| LineSpec.CleanEnd | unix_socket_api/src/astrolog.c:334-337 | a stream is read to a clean end if and only if it is a concatenation of well-formed requests |
| Machine.DeliveredCuts | unix_socket_api/generic/generic.c:150-165 | the bytes handed over are exactly those that the line specification cuts off next |
| Machine.ReceiveParses | unix_socket_api/src/astrolog.c:339-403 | one handler call is one step of reading a request |
| Machine.DriveParses | unix_socket_api/src/astrolog.c:437-454 | the loop reads exactly one request off the bytes at hand, or stops where they run out, or fails where the specification does |
| Machine.LoopEnds | unix_socket_api/src/astrolog.c:437-454 | the loop ends if and only if the bytes at hand do not stall it, and then within one pass per byte |
| Machine.StallExample | unix_socket_api/src/astrolog.c:352-354 | on a new connection a call that receives `X`, a line feed and `Y` in one chunk does not return |
| Machine.UpdateReturns | unix_socket_api/src/astrolog.c:433-454 | a call of update_state returns if and only if the bytes at hand, known before the call, do not stall it |
| Machine.UpdateHangs | unix_socket_api/src/astrolog.c:433-454 | the state after the call satisfies the loop condition exactly in the stalling case |
| Machine.UpdateKeeps | unix_socket_api/src/astrolog.c:433-472 | after update_state a connection is at rest (nothing unread while it waits to read, something to send while it waits to write) or over |
| Machine.UpdateEnds | unix_socket_api/src/astrolog.c:320-431 | a call ends a connection if and only if recv or send has failed, the stream has ended or the bytes at hand are malformed, and with success if and only if the stream has ended between two requests |
| Runs.RunsAreFaithful | unix_socket_api/src/astrolog.c:320-472 | in every reachable state the requests served, the phase, the partial line, the unread bytes, the bytes sent and the outcome of every connection are those of the line specification of the bytes received |
| Runs.ChunkingIsInvisible | unix_socket_api/generic/generic.c:132-166 | requests served and final outcome depend on the stream only, not on how it was cut into chunks; at its end a connection succeeds if and only if the stream does not end inside a request |
| Runs.SuccessMeansAnswered | unix_socket_api/src/astrolog.c:334-337 | success is reached only on a concatenation of well-formed requests, all answered in full |
| Runs.SentIsReplies | unix_socket_api/src/astrolog.c:405-431 | the bytes sent are the replies to the requests served, in order, up to a part of the last one |
| Runs.RunsAreExplained | unix_socket_api/src/astrolog.c:384-395 | every reply was computed from the requests completed before it, and the book is what all of them leave |
| Runs.LatestIsLast | unix_socket_api/src/astrolog.c:384-385 | the book holds for each zodiac the line of the last completed star request, and nothing if there was none |
| Runs.HoroscopeIsLatest | unix_socket_api/src/astrolog.c:297-311 | across any interleaving a HOROSCOPE reply is the line of the last completed star request for that zodiac, or the out-of-luck line if there was none |
| Runs.SetsAreThanked | unix_socket_api/src/astrolog.c:384-395 | in every run the reply to a completed star request is the thanks, in the log and in the history of each connection |
| Runs.LogInterleaves | unix_socket_api/src/astrolog.c:659-672 | the global log is an interleaving of what the connections have done, nothing lost or added |
| Runs.RepliesAreLines | unix_socket_api/src/astrolog.c:297-311 | every reply is exactly one line of at most 80 bytes |
| Timing.EnteredLast | unix_socket_api/src/astrolog.c:212-216 | the phase entry found along a timed run is the time of the last event with which the connection entered a phase |
| Timing.PhaseEndsWithLine | unix_socket_api/src/astrolog.c:339-403 | a connection that receives leaves its phase if and only if its line has come in full, so that partial data never moves a deadline |
| Timing.PhaseEndsWithReply | unix_socket_api/src/astrolog.c:405-431 | a connection that sends leaves its phase if and only if send has taken all that was left of the reply |
| Timing.PhaseBegins | unix_socket_api/src/astrolog.c:320-431 | in any run an event of a connection that goes on begins a phase if and only if its line has then come in full, or all its replies so far have been sent in full: no partial receive or send moves a deadline |
| Heaps.Heap.Swap | unix_socket_api/src/astrolog.c:148-161 | pointers and the slot numbers in the records change places together |
| Heaps.Heap.HeapifyUp | unix_socket_api/binary_heap/binary_heap.c:16-21 | repairs a key that is too early, in at most as many swaps as its depth |
| Heaps.Heap.HeapifyDown | unix_socket_api/binary_heap/binary_heap.c:23-45 | repairs a key that is too late, in at most floor(log2(size)) swaps |
| Heaps.Log2IsFloor | unix_socket_api/binary_heap/binary_heap.c:23-45 | the bound on the swaps is the floor of the binary logarithm |
| Heaps.Heap.Update | unix_socket_api/binary_heap/binary_heap.c:102-108 | after any change of one key restores order, records and slot numbers, in at most floor(log2(size)) swaps |
| Heaps.Heap.Push | unix_socket_api/binary_heap/binary_heap.c:77-87 | adds the record in at most floor(log2(size)) swaps, or refuses at capacity and changes nothing |
| Heaps.Heap.Remove | unix_socket_api/binary_heap/binary_heap.c:110-124 | removes the record of that slot and no other, in at most one swap more than floor(log2) of what is left |
| Heaps.Heap.Pop | unix_socket_api/binary_heap/binary_heap.c:89-100 | removes a record with the earliest deadline, in at most one swap more than floor(log2) of what is left |
| Heaps.Heap.Top | unix_socket_api/binary_heap/binary_heap.c:67-75 | returns a record with the earliest deadline, and nothing exactly when the heap is empty |
| Heaps.Heap.RootIsEarliest | unix_socket_api/binary_heap/binary_heap.c:67-75 | the root is a minimum of the whole heap |
| Heaps.Heap.Validate | unix_socket_api/binary_heap/binary_heap.c:126-147 | returns 0 if and only if every record is in order with its parent, although one child per parent is compared |
| Heaps.Heap.Drain | unix_socket_api/binary_heap/binary_heap_test.c:138-178 | repeated pops enumerate exactly the records held, once each, in order of deadline |
| Records.Memchr | unix_socket_api/generic/generic.c:156 | finds the first delimiter, or the end |
| Records.Connection.Fetch | unix_socket_api/generic/generic.c:132-166 | calls recv only when nothing is buffered, delivers a prefix of what is available and keeps the rest |
| Records.Connection.ReceiveMore | unix_socket_api/src/astrolog.c:325-341 | the line accumulated grows by exactly what the line specification looks at next; what recv has given is recorded |
| Records.Connection.SendMore | unix_socket_api/src/astrolog.c:409-418 | send takes its bytes from the current position, just these are recorded, and what is left to be sent is exactly the rest |
| Shared.Table.Store | unix_socket_api/src/astrolog.c:384-385 | overwriting a row in place makes it mean the new line, whatever longer line was there before, and changes no other row |
| Shared.Table.Find | unix_socket_api/src/astrolog.c:297-308 | the length found by the delimiter is that of the line last stored, and 0 exactly if none was |
| Engines.Engine.UpdateServerStateTs | unix_socket_api/src/astrolog.c:212-216 | the deadline is the time of the call plus 300 s when reading and 180 s when writing, and the heap is valid again |
| Engines.Engine.ParseStarFirstLine | unix_socket_api/src/astrolog.c:232-267 | a star line leads to receiving the prognosis of the zodiac it names, or to an error |
| Engines.Engine.ParseClientFirstLine | unix_socket_api/src/astrolog.c:269-318 | a client line leads to sending the current reply for the zodiac it names, or to an error |
| Engines.Engine.HandleFirstLine | unix_socket_api/src/astrolog.c:320-362 | does to buffers, table and deadline what one call of the abstract machine does |
| Engines.Engine.HandleRecvH | unix_socket_api/src/astrolog.c:364-403 | the same for the prognosis; the table changes only when the line is complete |
| Engines.Engine.HandleSendReply | unix_socket_api/src/astrolog.c:405-431 | the same for a reply sent in parts |
| Engines.Engine.RunLoop | unix_socket_api/src/astrolog.c:437-454 | one call of recv or send, at most 81 passes counted in the loop body, the result of the abstract update; the deadline counts from within the call if the phase has been left, and is what it was if not |
| EventLoops.Server.UpdateState | unix_socket_api/src/astrolog.c:433-473 | takes the step of the run, removes the connection exactly if it is over, keeps registered interest and direction equal, fails exactly if epoll refuses the new direction of a connection that goes on, moves the deadline exactly if the phase has been left, leaves all other connections as they are |
| EventLoops.Server.RemoveServerState | unix_socket_api/src/astrolog.c:218-230 | removal by the record's own slot number frees exactly that record and unregisters it |
| EventLoops.Server.CreateServerState | unix_socket_api/src/astrolog.c:165-210 | a new connection is in heap, table of registrations and run, or nowhere at all |
| EventLoops.Server.ProcessNewConnection | unix_socket_api/src/astrolog.c:510-546 | over capacity a connection is turned away without error and without a trace |
| EventLoops.Server.MinTimeout | unix_socket_api/src/astrolog.c:490-508 | -1 exactly without connections, otherwise 0 to 300000 ms; 0 if a deadline has expired, never past any deadline, and until less than 1 ms before the earliest; the same of the deadlines of the run (`SleepsWell`) |
| EventLoops.Server.Expire | unix_socket_api/src/astrolog.c:557-559 | the loop body of the sweep removes that connection and cannot hang |
| EventLoops.Server.DiscardExpired | unix_socket_api/src/astrolog.c:548-561 | reads the clock once and removes exactly the connections whose deadline is at or before that time, leaving the others untouched; each of them had, by the run, entered its phase that long ago or longer, and no connection that the run still serves had |
| EventLoops.Server.ServeReady | unix_socket_api/src/astrolog.c:669-671 | hangs exactly when the bytes at hand stall the loop, fails exactly if epoll refuses the new direction of a connection that goes on, otherwise keeps the invariants; the deadline moves exactly if the phase has been left |
| EventLoops.Server.ServeReport | unix_socket_api/src/astrolog.c:659-672 | one report is served, or fails, or hangs; for the listening socket a connection is accepted if and only if the run serves fewer than the capacity |
| EventLoops.Server.ServeBatch | unix_socket_api/src/astrolog.c:659-672 | the run grows by what comes of serving the reports, in order: an event for each connection, a new connection for the listening socket exactly if there is room; all reports are served unless one fails or hangs, and then it says which and why; every connection reported is still being served by the run when its turn comes, so none has been freed meanwhile |
| EventLoops.Server.Shutdown | unix_socket_api/src/astrolog.c:677-681 | frees and closes each remaining connection exactly once |
| EventLoops.Server.NextWait | unix_socket_api/src/astrolog.c:643-672 | one round: epoll_wait may sleep as long as the deadlines of the run allow; if nothing is ready exactly the connections whose time is over at some time after the wait are dropped and none is left that was due then, otherwise the batch is served |
| EventLoops.Server.EventLoop | unix_socket_api/src/astrolog.c:643-681 | over any number of rounds the run is that of the rounds, one right after the other, each done in full; the loop ends early only after a wait that fails or a report that fails or hangs; the invariants hold, nothing accepted, freed or done is forgotten, no report finds its connection freed, and at the end every connection ever accepted has been freed exactly once |
| EventLoops.Server.ServedFaithfully | unix_socket_api/src/astrolog.c:42-52 | every connection in memory is a faithful link of the run so far, and the bytes of that link are those that went through recv and send |
| EventLoops.Server.DeadlineIsPhaseEntry | unix_socket_api/src/astrolog.c:125-135 | between events every deadline is the time of the last event with which the connection entered a phase, plus 300 s when reading and 180 s when writing |
| EventLoops.Server.TableIsLatest | unix_socket_api/src/astrolog.c:54 | the table in memory means the last completed prognosis of each zodiac |
| UnixProxy.RecvLine | unix_socket_api/generic/generic.c:71-102 | returns one whole line with nothing received behind it; 0 only when recv has seen the end of the stream; -1 only if recv has failed, or the buffer is full without a delimiter, or bytes came behind a delimiter |
| UnixProxy.SendAll | unix_socket_api/generic/generic.c:53-69 | sends everything, or a proper part and then only because send has failed |
| UnixProxy.Proxy.HandleRecvRequest | unix_socket_api/src/proxy.c:65-96 | one line is received and nothing behind it; it is kept for forwarding, as it came, if and only if it begins as a client request does, and answered with a refusal otherwise; the session ends here only at the end of the stream, or because recv has failed or no line can come of what was received |
| UnixProxy.Proxy.HandleSendRequest | unix_socket_api/src/proxy.c:98-109 | the stream to the server grows by a part of the request, all of it unless send has failed, and every line of it still begins as a client request does; a failure to send is overwritten by the next state, but leaves the request half sent |
| UnixProxy.Proxy.HandleRecvReply | unix_socket_api/src/proxy.c:111-128 | a reply is one line, and from an honest server it is the answer to the request just sent; after a request that was half sent it ends with the server error; with that it ends only if recv has failed, the stream has ended, or what has come since the request is no line |
| UnixProxy.Proxy.HandleSendReply | unix_socket_api/src/proxy.c:130-142 | the client is sent exactly the buffered reply or refusal before its next request is awaited, and its line is then recorded as dealt with; only a failing send leaves it sent a proper part |
| UnixProxy.Proxy.ProcessNewConnection | unix_socket_api/src/proxy.c:144-182 | what the client has sent is the lines dealt with, in order, up to the one in work; what it has been sent is the refusals and replies to them, in order, up to a proper part of the last one if sending failed; and an honest server was asked just the forwarded lines and answered them with just these replies; the session ends only for a reason found on one of the two sockets, and every round of the loop calls recv or send |
| UnixProxy.Proxy.Child | unix_socket_api/src/proxy.c:184-217 | for every client accepted, what went over its own socket is exactly what its session says; between its accept and the next one an honest server was asked exactly the lines forwarded for it and at most the one in work, and answered exactly these; at every accept it owes nothing; clients not accepted were sent nothing; every session that ends with an error does so for a reason that the history of its socket shows |
| UnixProxy.SessionAnswered | unix_socket_api/src/proxy.c:130-142 | by the end of a session all that is in its log has been answered, and a reply that did not reach the client in full is the answer in the next place |
| UnixProxy.NothingDealtWith | unix_socket_api/src/proxy.c:65-142 | a client with nothing in its session has been sent no more than a part of one refusal or reply |
| UnixProxy.RelayedInPlace | unix_socket_api/src/proxy.c:98-142 | each reply relayed stands among the server's answers in the very place that the line it was relayed for has among the lines the server was asked |
| UnixProxy.PlacesRise | unix_socket_api/src/proxy.c:98-142 | the places of the replies relayed to a client rise strictly |
| UnixProxy.ProxiedNeverSets | unix_socket_api/src/astrolog.c:343-356 | a connection whose stream comes from the proxy never waits for a prognosis and never changes the book, for any chunking and interleaving |
| UnixProxy.ServerAnswersByLines | unix_socket_api/src/astrolog.c:405-431 | the complete lines sent on a connection are the replies to its first requests, one for each |
| UnixProxy.ServerIsHonest | unix_socket_api/src/astrolog.c:320-431 | the server of this model answers every line with one line, as the proxy expects, for any chunking on either side |
| UnixProxy.ProxyAndServer | unix_socket_api/src/proxy.c:98-128 | with that server behind it all that is claimed of the child for an honest server holds, and the server sets no prognosis for it |
| BoostServer.FirstName | boost_asio/include/common.h:37-49 | a name in the list that the text starts with, none exactly if there is none |
| BoostServer.UnderstoodIsAsked | boost_asio/src/server.cpp:108-127 | a line is understood as a star's or a client's request for a zodiac if and only if it begins with that request and that name, whatever follows |
| BoostServer.ServerConnection.HandleReadRequest | boost_asio/src/server.cpp:89-159 | next operation and buffer for each kind of request line, with what is left of the buffer before the response; a client is told the prognosis last set for the zodiac it asks for, or that it is out of luck if none was |
| BoostServer.ServerConnection.HandleReadPrognosis | boost_asio/src/server.cpp:161-194 | sets the prognosis to the line read and puts the confirmation behind what is left |
| BoostServer.ServerConnection.Handle | boost_asio/src/server.cpp:89-213 | every I/O handler leaves as many operations outstanding as it found while the connection stays open, and one fewer otherwise |
| BoostServer.BookIsLast | boost_asio/src/server.cpp:24-39 | the map holds for each zodiac the prognosis last set, and nothing if none was |
| BoostServer.ResponseIsLast | boost_asio/src/server.cpp:131-147 | the response looked up in the map is the line last set for the zodiac, or the out-of-luck text if none was |
| BoostServer.ServerConnection.Run | boost_asio/src/server.cpp:56-250 | in any run, among others that set prognoses, every step that is possible is taken; exactly one I/O operation and one timer wait are outstanding while the connection is open, and once it is stopped one more handler runs and starts nothing; all that is sent is, in order, to each client the prognosis last set for the zodiac it asked for or the out-of-luck text, and the thanks for each prognosis just set for the zodiac the star named, each behind what was in the buffer |
| BoostServer.OnlyResponses | boost_asio/src/server.cpp:146-153 | the responses alone are sent if and only if no request had anything behind it in the buffer |
| BoostServer.EchoExample | boost_asio/src/server.cpp:108-153 | a request with one byte behind it is answered with that byte in front of the response |
| BoostProxy.StarsAreStars | boost_asio/src/proxy.cpp:84-117 | a line that begins as a star's does is a star's whatever follows, and one that begins as a client's does is not |
| BoostProxy.ProxyConnection.HandleReadRequest | boost_asio/src/proxy.cpp:65-117 | a star is refused and the rest of its input dropped, any other line is put on the link |
| BoostProxy.ProxyConnection.HandleReadResponse | boost_asio/src/proxy.cpp:139-168 | a response line is passed on behind what the client has left in the buffer |
| BoostProxy.ProxyConnection.Handle | boost_asio/src/proxy.cpp:65-186 | every I/O handler leaves as many operations outstanding as it found while the connection stays open, and one fewer otherwise |
| BoostProxy.ProxyConnection.Run | boost_asio/src/proxy.cpp:27-208 | in any run, whatever the server, every step that is possible is taken; exactly one I/O operation and one timer wait are outstanding while the connection is open, and once it is stopped one more handler runs and starts nothing; stars are refused and no one else; all that is sent to the client is, in order, the refusals and the lines taken off the link, each behind what was in the buffer, and all that is put on the link is the lines of other clients |
| BoostLink.Link.ProxyRequestRead | boost_asio/src/proxy.cpp:84-116 | an exchange begins with the client's line alone on the link, whatever the client has pipelined behind it |
| BoostLink.Link.ServerRequestRead | boost_asio/src/server.cpp:108-158 | the server reads the forwarded line, whole and alone; its response, the prognosis then known for the zodiac that the line names or the out-of-luck text, is all that its buffer then holds; no prognosis is set |
| BoostLink.Link.ProxyResponseRead | boost_asio/src/proxy.cpp:152-167 | the proxy takes the server's response to the line last forwarded, whole and alone, passes it on behind the client's leftovers, and leaves the link empty in both directions |
| BoostLink.Link.Run | boost_asio/src/proxy.cpp:57-208 | in any order of steps, each taken if it is possible, the lines that the server has served, with the responses owed to them, are those that the proxy has relayed, in order, up to the exchange in work, and nothing else crosses the link; each connection has its one operation and one wait outstanding, this connection sets no prognosis, and what is set is what the other connections set |

## Left out

- UnixProxy.Proxy.ProcessNewConnection: runs for at most a given number of rounds, because a client
  may go on for ever; what is claimed holds after every number of rounds.
- UnixProxy.Proxy.Child: accepts a given list of connections, for the same reason.
- EventLoops.Server.EventLoop: runs for a given number of rounds, because the original never ends by
  itself.
- EventLoops.Server.DiscardExpired: exact, but not prompt; the sweep runs only when epoll reports
  nothing within the timeout.
- BoostServer.ServerConnection.HandleDeadline: an expiry handler that is already queued may run after
  the deadline was renewed, so a timeout does not imply a full idle period.
- The two children of the UNIX proxy that share one server socket: which child gets which reply is not
  something the code establishes.
- Socket set-up, listening, epoll calls, resource limits, processes and signals, other than their
  outcomes; failure of an epoll deletion.
- Logging. The NUL bytes written into buffers for its sake are kept where the code writes them.
- Nanosecond times are unbounded integers; overflow of a 64-bit time is not modelled, and a time is one
  number of nanoseconds instead of seconds and nanoseconds.
- Bytes are modelled as `char`.
- `buffered_recv`, which nothing on the server path uses; the harmful test client, random sleeps and
  command lines.
- Strands, threads and the internals of Boost.Asio: a handler is one atomic step.
