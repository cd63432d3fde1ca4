# Boost.Asio study programs: a verified model

The modelled programs are small network clients and servers written on Boost.Asio. The model keeps their own logic and
describes Boost.Asio by contract: a connection delivers its bytes in arbitrary pieces of at least one byte and then
ends in some way; `read_until` fills a buffer until it contains a delimiter and may hold more; an `io_service` runs
each started operation's handler once, on any of its threads, with any result; a mutex has at most one owner.

* **The multi-threaded TCP client.** `TcpClient` is an interleaved step system: any number of worker and user threads,
  a program counter for each, one step for each mutex operation or access to shared state. `TcpClientInvariant` proves
  what every step keeps, `TcpClientHistory` what only grows, `TcpClientDeadlock` exactly when threads block each other
  for ever, `TcpClientOnce` which programs never come to that, `TcpClientProperties` what callbacks report and what the
  session table holds, `TcpClientDrain` how runs end, `TcpClientClose` what a return of `close` means and exactly what
  keeps it from returning. `TcpClientCode` has the same functions and handlers as methods of objects and ties them to
  the step system, and `TcpClientWitness` gives runs that show that side conditions are needed.
* **The HTTP client.** `Streams` and `Sockets` are `std::istream` on a partly filled buffer and the socket. `HttpClient`
  has the staged handlers as methods of the request object and the parsers as functions. `Words` and `Numbers` say
  independently of them what the words of a line and the numbers in a word are, `HttpStatusLines` what the client makes
  of first lines word by word. `HttpClientProperties` is about well-formed responses, whole or cut, `HttpClientLimits`
  about responses without headers and exactly which first lines depend on timing, `HttpClientHangs` about header blocks
  with bare CRs anywhere: exactly when the header loop ends inside the block, goes on over the body, or hangs.
  `HttpCancel` and `HttpCancelProperties` are `execute`, `cancel` and the seven stages as a step system,
  `HttpLateCancel` is about cancels that come late.
* **The HTTP server.** `HttpServer` is the self-deleting service with its buffer of 4096 bytes, `HttpDecisions` what it
  decides on every connection. `RoundTrip` joins it to the client's request printer, `HeaderLoops` compares the two
  header loops. `ServerLife` is the acceptor and the services of both asynchronous servers as a step system,
  `ServerLifeProperties` what holds of them in every run, `ServerLifeDrain` how they come to rest, `AsyncTcpServer` the
  plain server's handlers as methods of objects.
* **Partial transfers.** `Transfers` has the synchronous loops, the callback chains and the one-shot calls.

`Asio`, `Runs` (runs of any step relation) and `Sums` are shared.

Some things the code does that a reader might not expect, all of them kept:

* Cancelling one id twice can deadlock the TCP client, exactly as `CycleIffEmbrace` says, and then `close` never
  returns. Without cancelling an id twice no deadlock is possible; without a deadlock `close` always returns.
* A submission under an active id takes the older session out of reach of `cancelRequest`, and the older session's
  completion then erases the newer session's entry. The table is exact exactly if this does not happen.
* A submission by a user thread after the io_service has run out of work, for example after `close` has returned, is
  never called back.
* A cancel of an HTTP request can be lost once the read of the body has been started, until that read fails.
* Both HTTP programs consume the first line's CRLF before they look for a blank line, and so take a message without
  headers for complete only if another blank line follows: the server leaves such a request alone unless more arrives,
  and the client reports such a response as failed unless its body supplies the blank line.
* The HTTP client's header loop splits at CRs, not at CRLFs. With bare CRs in the headers it can step over the blank
  line and go on over the body, where it can spin for ever, or it can end early and leave the rest of the headers in
  front of the body. With an incomplete first line what it makes of a response can depend on timing. In each case this
  happens exactly under the stated condition.
* The two header loops agree exactly as long as no line with a colon follows one without.
* The server prints no space between version and status code, so that the client rejects every one of its responses.

## Model

| member | source | states |
|---|---|---|
| TcpClientInvariant.NextKeeps | Boost.Asio Study/Chapter-03-클라이언트 애플리케이션 구현/Section-03-비동기 TCP 클라이언트 구현하기/03-03-01-multi_thread_async_tcp_client.cpp:80-186 | every step of every thread keeps the invariant: exactly the owner of a mutex stands inside its scope; each session is at one stage, with its operations started and completed in order; each table entry refers to an inserted, unerased session with that id; the flag is set exactly as often as lookups have marked it |
| TcpClientInvariant.RunInv | Boost.Asio Study/Chapter-03-클라이언트 애플리케이션 구현/Section-03-비동기 TCP 클라이언트 구현하기/03-03-01-multi_thread_async_tcp_client.cpp:80-186 | that invariant holds in every state of every run, for any number of threads, sessions, submissions, cancels, calls of `close` and id collisions |
| TcpClientDeadlock.CycleIffEmbrace | Boost.Asio Study/Chapter-03-클라이언트 애플리케이션 구현/Section-03-비동기 TCP 클라이언트 구현하기/03-03-01-multi_thread_async_tcp_client.cpp:90-185 | in every reachable state a cycle of threads waiting for each other's mutexes exists if and only if some `cancelRequest` owns the table and waits for the guard of the session it found, while that session's connect or write handler, in its cancelled branch, owns the guard and waits for the table |
| TcpClientDeadlock.CycleIsEmbrace | Boost.Asio Study/Chapter-03-클라이언트 애플리케이션 구현/Section-03-비동기 TCP 클라이언트 구현하기/03-03-01-multi_thread_async_tcp_client.cpp:90-185 | every member of a wait cycle, however long, is one of the two threads of one such embrace |
| TcpClientDeadlock.EmbraceNeedsTwoLookups | Boost.Asio Study/Chapter-03-클라이언트 애플리케이션 구현/Section-03-비동기 TCP 클라이언트 구현하기/03-03-01-multi_thread_async_tcp_client.cpp:141-152 | an embrace takes a session that two `cancelRequest` calls have found |
| TcpClientDeadlock.FoundOnceNeverDeadlocks | Boost.Asio Study/Chapter-03-클라이언트 애플리케이션 구현/Section-03-비동기 TCP 클라이언트 구현하기/03-03-01-multi_thread_async_tcp_client.cpp:90-185 | a run in which no session is found twice never has a wait cycle |
| TcpClientOnce.CancelledOnceNeverDeadlocks | Boost.Asio Study/Chapter-03-클라이언트 애플리케이션 구현/Section-03-비동기 TCP 클라이언트 구현하기/03-03-01-multi_thread_async_tcp_client.cpp:90-185 | a program that never passes one id to `cancelRequest` twice never has a wait cycle, whatever ids it submits and resubmits, and whatever the scheduler and the network do |
| TcpClientDeadlock.SomeoneAdvances | Boost.Asio Study/Chapter-03-클라이언트 애플리케이션 구현/Section-03-비동기 TCP 클라이언트 구현하기/03-03-01-multi_thread_async_tcp_client.cpp:90-185 | without an embrace, as long as a thread is inside the client's code some thread inside it can take its next step |
| TcpClientWitness.DeadlockIsReachable | Boost.Asio Study/Chapter-03-클라이언트 애플리케이션 구현/Section-03-비동기 TCP 클라이언트 구현하기/03-03-01-multi_thread_async_tcp_client.cpp:90-185 | cancelling one session twice can reach the embrace from the initial state, so the condition is needed |
| TcpClientProperties.CancelNeverLost | Boost.Asio Study/Chapter-03-클라이언트 애플리케이션 구현/Section-03-비동기 TCP 클라이언트 구현하기/03-03-01-multi_thread_async_tcp_client.cpp:141-185 | if a lookup finds a session at any time in a run, no callback at any time in that run reports success for it, also when the whole response had arrived and also with reused ids |
| TcpClientProperties.Outcome | Boost.Asio Study/Chapter-03-클라이언트 애플리케이션 구현/Section-03-비동기 TCP 클라이언트 구현하기/03-03-01-multi_thread_async_tcp_client.cpp:165-186 | the callback runs at most once; it reports success exactly if connect, write and read all succeeded and no lookup ever found the session, and then hands over the line that was read; a failed operation is reported as its own error, and a found session whose operations all went well as an abort |
| TcpClientHistory.RunErasedIsFinal | Boost.Asio Study/Chapter-03-클라이언트 애플리케이션 구현/Section-03-비동기 TCP 클라이언트 구현하기/03-03-01-multi_thread_async_tcp_client.cpp:170-183 | after a session's own erase step no lookup returns it any more and its flag stays what it is, so that reading the flag without the guard is stable |
| TcpClientProperties.TableValid | Boost.Asio Study/Chapter-03-클라이언트 애플리케이션 구현/Section-03-비동기 TCP 클라이언트 구현하기/03-03-01-multi_thread_async_tcp_client.cpp:90-92 | whatever ids are reused, a table entry refers to a session that has been inserted and has not passed its erase step, and that has the entry's id |
| TcpClientProperties.TableExactExactly | Boost.Asio Study/Chapter-03-클라이언트 애플리케이션 구현/Section-03-비동기 TCP 클라이언트 구현하기/03-03-01-multi_thread_async_tcp_client.cpp:90-176 | at every moment up to a given one the table is exactly the map of active sessions by id, if and only if at every moment up to it sessions that are active at the same time have different ids |
| TcpClientWitness.ReusedIdIsUntabled | Boost.Asio Study/Chapter-03-클라이언트 애플리케이션 구현/Section-03-비동기 TCP 클라이언트 구현하기/03-03-01-multi_thread_async_tcp_client.cpp:90-92 | with an id that is still active, a submission leaves an active session that no lookup can find |
| TcpClientWitness.OlderSessionErasesNewer | Boost.Asio Study/Chapter-03-클라이언트 애플리케이션 구현/Section-03-비동기 TCP 클라이언트 구현하기/03-03-01-multi_thread_async_tcp_client.cpp:172-174 | and the older session's completion then erases the newer session's entry |
| TcpClientProperties.OwnGuardNeverBlocks | Boost.Asio Study/Chapter-03-클라이언트 애플리케이션 구현/Section-03-비동기 TCP 클라이언트 구현하기/03-03-01-multi_thread_async_tcp_client.cpp:102-107 | a callback that cancels its own id never waits for the guard that its own handler may hold |
| TcpClientProperties.BoundedAfterCancel | Boost.Asio Study/Chapter-03-클라이언트 애플리케이션 구현/Section-03-비동기 TCP 클라이언트 구현하기/03-03-01-multi_thread_async_tcp_client.cpp:141-152 | from the moment a session's flag is set it starts no write and no read, only the connect if that has not been started, and at most one more of its completion handlers finishes |
| TcpClientDrain.RunsWithoutCallsEnd | Boost.Asio Study/Chapter-03-클라이언트 애플리케이션 구현/Section-03-비동기 TCP 클라이언트 구현하기/03-03-01-multi_thread_async_tcp_client.cpp:94-186 | without new calls only boundedly many more steps are possible, those of a `close` that has begun included, whatever the scheduler and the network do |
| TcpClientDrain.StuckMeansDrained | Boost.Asio Study/Chapter-03-클라이언트 애플리케이션 구현/Section-03-비동기 TCP 클라이언트 구현하기/03-03-01-multi_thread_async_tcp_client.cpp:94-186 | where no such step is possible and there is no embrace, every session's callback has run exactly once, its handler has returned, and the table is empty, even if ids collided |
| TcpClientClose.CloseDrains | Boost.Asio Study/Chapter-03-클라이언트 애플리케이션 구현/Section-03-비동기 TCP 클라이언트 구현하기/03-03-01-multi_thread_async_tcp_client.cpp:154-163 | after `close` has returned, a session whose connect was started has completed, once, exactly if that start came before the io_service ran out of work; if all did, the table is empty |
| TcpClientWitness.LateIsReachable | Boost.Asio Study/Chapter-03-클라이언트 애플리케이션 구현/Section-03-비동기 TCP 클라이언트 구현하기/03-03-01-multi_thread_async_tcp_client.cpp:80-163 | a session whose connect is started after the io_service has run out of work is possible: by a submission after `close` has returned |
| TcpClientClose.LateIsNeverCalledBack | Boost.Asio Study/Chapter-03-클라이언트 애플리케이션 구현/Section-03-비동기 TCP 클라이언트 구현하기/03-03-01-multi_thread_async_tcp_client.cpp:80-163 | such a session is not called back in any later state of the run |
| TcpClientClose.SubmittedBeforeClose | Boost.Asio Study/Chapter-03-클라이언트 애플리케이션 구현/Section-03-비동기 TCP 클라이언트 구현하기/03-03-01-multi_thread_async_tcp_client.cpp:80-163 | a session whose submission had returned before any `close` began has completed, exactly once, when a `close` returns |
| TcpClientClose.SubmittedByCallback | Boost.Asio Study/Chapter-03-클라이언트 애플리케이션 구현/Section-03-비동기 TCP 클라이언트 구현하기/03-03-01-multi_thread_async_tcp_client.cpp:80-186 | so has a session that was submitted from inside a callback, whenever that was |
| TcpClientClose.CloseAfterAllSubmissions | Boost.Asio Study/Chapter-03-클라이언트 애플리케이션 구현/Section-03-비동기 TCP 클라이언트 구현하기/03-03-01-multi_thread_async_tcp_client.cpp:80-186 | if from some time before `close` on no user thread is inside `emulateLongComputationOp`, then when `close` returns every session ever submitted has completed exactly once, and the table is empty, even if ids collided |
| TcpClientClose.EmbraceBlocksAll | Boost.Asio Study/Chapter-03-클라이언트 애플리케이션 구현/Section-03-비동기 TCP 클라이언트 구현하기/03-03-01-multi_thread_async_tcp_client.cpp:90-186 | from an embrace on, in every later state of the run, `close` has not returned, the session has not been called back, and the table, still locked, has not changed |
| TcpClientClose.StuckWithoutEmbrace | Boost.Asio Study/Chapter-03-클라이언트 애플리케이션 구현/Section-03-비동기 TCP 클라이언트 구현하기/03-03-01-multi_thread_async_tcp_client.cpp:154-163 | once `close` has dropped the work object, a state without an embrace in which no step but a new call is possible has the io_service stopped and no thread inside `close` |
| TcpClientClose.CloseBlockedExactly | Boost.Asio Study/Chapter-03-클라이언트 애플리케이션 구현/Section-03-비동기 TCP 클라이언트 구현하기/03-03-01-multi_thread_async_tcp_client.cpp:154-163 | of a call of `close` that has begun: where its run cannot go on without new calls, it is still blocked if and only if there is an embrace, and otherwise it has returned |
| TcpClientCode.RunsAlone | Boost.Asio Study/Chapter-03-클라이언트 애플리케이션 구현/Section-03-비동기 TCP 클라이언트 구현하기/03-03-01-multi_thread_async_tcp_client.cpp:80-186 | a call or handler whose mutexes are free can run to its return in the step system, with the effect that `RunCode` computes |
| TcpClientCode.AsyncTCPClient.EmulateLongComputationOp | Boost.Asio Study/Chapter-03-클라이언트 애플리케이션 구현/Section-03-비동기 TCP 클라이언트 구현하기/03-03-01-multi_thread_async_tcp_client.cpp:80-94 | the new session object replaces whatever was stored under its id, and under each id the object is stored whose session the step system has there after the undisturbed submission |
| TcpClientCode.AsyncTCPClient.CancelRequest | Boost.Asio Study/Chapter-03-클라이언트 애플리케이션 구현/Section-03-비동기 TCP 클라이언트 구현하기/03-03-01-multi_thread_async_tcp_client.cpp:141-152 | only the flag of the object found under the id changes, and the objects then show the state after an undisturbed `cancelRequest` of the step system |
| TcpClientCode.AsyncTCPClient.OnConnectedOrSent | Boost.Asio Study/Chapter-03-클라이언트 애플리케이션 구현/Section-03-비동기 TCP 클라이언트 구현하기/03-03-01-multi_thread_async_tcp_client.cpp:94-123 | after the connect or write handler the objects, and which of them is stored under which id, show the state after the undisturbed handler of the step system, which either has started the next operation or has called back; so `onRequestComplete` hands over an abort exactly for a cancelled session without an error of its own |
| TcpClientCode.AsyncTCPClient.OnResponse | Boost.Asio Study/Chapter-03-클라이언트 애플리케이션 구현/Section-03-비동기 TCP 클라이언트 구현하기/03-03-01-multi_thread_async_tcp_client.cpp:125-136 | the same for the read handler, which always calls back |
| HttpClientProperties.ChunkingIndependent | Boost.Asio Study/Chapter-05-HTTP와 SSL TLS/Section-01-HTTP 클라이언트 애플리케이션 구현하기/05-01-01-http_client.cpp:281-385 | for every well-formed response with at least one header line, every status code below 2^32 in any number of digits, every body, every way of ending and every amount of data that may be buffered at the two parsing stages, an uncancelled run completes with that number, the reason with the space before it, the header map of the lines, and exactly the body: with success if the connection was closed, and otherwise with the error that ended it |
| HttpClientProperties.CutResponse | Boost.Asio Study/Chapter-05-HTTP와 SSL TLS/Section-01-HTTP 클라이언트 애플리케이션 구현하기/05-01-01-http_client.cpp:281-385 | however early a connection with such a response ends: inside status line or headers the request fails with what ended it, and behind them it completes with the part of the body that came |
| HttpClient.HTTPRequest.ReceiveResponse | Boost.Asio Study/Chapter-05-HTTP와 SSL TLS/Section-01-HTTP 클라이언트 애플리케이션 구현하기/05-01-01-http_client.cpp:259-394 | the staged chain of handlers over a connection that delivers arbitrary short reads computes `Receive` of the whole stream, for amounts that the two `read_until` may have buffered; a connection that ends before the first CRLF is reported as failed with its ending, and a completed response as a success exactly if the connection was closed |
| HttpClient.HTTPRequest.OnStatusLineReceived | Boost.Asio Study/Chapter-05-HTTP와 SSL TLS/Section-01-HTTP 클라이언트 애플리케이션 구현하기/05-01-01-http_client.cpp:288-317 | stores code and message and consumes the line, or rejects it, as the stream parser `ParseStatusLine` says |
| HttpClient.HTTPRequest.OnHeadersReceived | Boost.Asio Study/Chapter-05-HTTP와 SSL TLS/Section-01-HTTP 클라이언트 애플리케이션 구현하기/05-01-01-http_client.cpp:340-363 | the header loop terminates with the header map and rest that `HeaderLoop` defines, or reports that it would spin |
| HttpClient.HTTPRequest.OnConnectionEstablished | Boost.Asio Study/Chapter-05-HTTP와 SSL TLS/Section-01-HTTP 클라이언트 애플리케이션 구현하기/05-01-01-http_client.cpp:241-243 | appends exactly one request: request line, HOST header, blank line |
| HttpClient.SpinningIteration | Boost.Asio Study/Chapter-05-HTTP와 SSL TLS/Section-01-HTTP 클라이언트 애플리케이션 구현하기/05-01-01-http_client.cpp:343-348 | once the stream is not good, an iteration on a non-empty line changes neither line, stream nor headers: the loop never ends |
| HttpClientProperties.HeaderLoopEnds | Boost.Asio Study/Chapter-05-HTTP와 SSL TLS/Section-01-HTTP 클라이언트 애플리케이션 구현하기/05-01-01-http_client.cpp:343-363 | over CR-free non-empty lines the loop ends, having consumed exactly through the blank line, with the fold of the lines |
| HttpClientProperties.LastLineWins | Boost.Asio Study/Chapter-05-HTTP와 SSL TLS/Section-01-HTTP 클라이언트 애플리케이션 구현하기/05-01-01-http_client.cpp:115-117 | for every name the fold holds the value of the last line with that name, split at its first colon |
| HttpClientHangs.LinesAreSeenIffCRFree | Boost.Asio Study/Chapter-05-HTTP와 SSL TLS/Section-01-HTTP 클라이언트 애플리케이션 구현하기/05-01-01-http_client.cpp:343-349 | the loop sees a block's own lines if and only if all of them are free of CR |
| HttpClientHangs.SeenLinesMakeHeaders | Boost.Asio Study/Chapter-05-HTTP와 SSL TLS/Section-01-HTTP 클라이언트 애플리케이션 구현하기/05-01-01-http_client.cpp:343-363 | whatever the buffer holds, a loop that ends has stored the header map of exactly the lines it has seen |
| HttpClientHangs.BlockPasses | Boost.Asio Study/Chapter-05-HTTP와 SSL TLS/Section-01-HTTP 클라이언트 애플리케이션 구현하기/05-01-01-http_client.cpp:343-363 | for every header block, CRs anywhere, and whatever is buffered behind it: the loop ends inside the block and leaves the rest of the block in front of what follows, or it goes on over what follows as header lines; which of both is decided by the walk from CR to CR over the block alone |
| HttpClientHangs.LoopEndsExactly | Boost.Asio Study/Chapter-05-HTTP와 SSL TLS/Section-01-HTTP 클라이언트 애플리케이션 구현하기/05-01-01-http_client.cpp:343-363 | on any text at all the loop ends if and only if that walk meets an empty line or ends exactly where the text does |
| HttpClientHangs.BlockIsTimingFreeExactly | Boost.Asio Study/Chapter-05-HTTP와 SSL TLS/Section-01-HTTP 클라이언트 애플리케이션 구현하기/05-01-01-http_client.cpp:343-363 | what the loop makes of a block is independent of what is buffered behind it if and only if it ends inside the block |
| HttpClientHangs.ResponseExactly | Boost.Asio Study/Chapter-05-HTTP와 SSL TLS/Section-01-HTTP 클라이언트 애플리케이션 구현하기/05-01-01-http_client.cpp:281-385 | for every first line that decides by itself, every header block, every body and every amount that may be buffered: the code, the message, the header map of the lines seen, and the rest of the block and the body, or what the loop comes to on as much of the body as has arrived |
| HttpClientHangs.HangsExactly | Boost.Asio Study/Chapter-05-HTTP와 SSL TLS/Section-01-HTTP 클라이언트 애플리케이션 구현하기/05-01-01-http_client.cpp:327-375 | for everything that can follow a status line and every way it arrives: the client hangs if and only if the walk meets no empty line in the block up to the first blank line and does not end on what is buffered behind it either |
| HttpClientHangs.ReceiveHangsExactly | Boost.Asio Study/Chapter-05-HTTP와 SSL TLS/Section-01-HTTP 클라이언트 애플리케이션 구현하기/05-01-01-http_client.cpp:281-385 | for every stream at all and every way it arrives: the client hangs if and only if its first line is accepted and what follows is of that kind |
| HttpClientHangs.HangOccurs | Boost.Asio Study/Chapter-05-HTTP와 SSL TLS/Section-01-HTTP 클라이언트 애플리케이션 구현하기/05-01-01-http_client.cpp:327-363 | and there are such responses: it hangs when one arrives all at once |
| HttpClientHangs.BareCRHangsExactly | Boost.Asio Study/Chapter-05-HTTP와 SSL TLS/Section-01-HTTP 클라이언트 애플리케이션 구현하기/05-01-01-http_client.cpp:327-375 | a response whose last header line ends in a CR and whose body has none hangs the client if and only if some of the body has arrived by the time the headers are parsed; otherwise it completes as if the CR were not there |
| HttpClientHangs.BadEndReadsBody | Boost.Asio Study/Chapter-05-HTTP와 SSL TLS/Section-01-HTTP 클라이언트 애플리케이션 구현하기/05-01-01-http_client.cpp:327-375 | for every body, such a response comes to what the header loop makes of as much of the body as has arrived |
| HttpClientLimits.NoHeadersExactly | Boost.Asio Study/Chapter-05-HTTP와 SSL TLS/Section-01-HTTP 클라이언트 애플리케이션 구현하기/05-01-01-http_client.cpp:313-375 | for every chunking, a response without headers completes with no headers and exactly its body if a blank line follows the status line's own CRLF somewhere, and otherwise fails with whatever ends the connection |
| HttpClientProperties.StatusLineParses | Boost.Asio Study/Chapter-05-HTTP와 SSL TLS/Section-01-HTTP 클라이언트 애플리케이션 구현하기/05-01-01-http_client.cpp:292-314 | a status line is split into its number and the message, and what follows it stays in the buffer |
| HttpClientLimits.TimingFreeIffSettled | Boost.Asio Study/Chapter-05-HTTP와 SSL TLS/Section-01-HTTP 클라이언트 애플리케이션 구현하기/05-01-01-http_client.cpp:292-314 | what the client makes of a first line, whatever bytes are in it, is independent of what has arrived behind it if and only if the line has a first word and, if that is the expected version, a second one |
| HttpClientLimits.SettledLineInStream | Boost.Asio Study/Chapter-05-HTTP와 SSL TLS/Section-01-HTTP 클라이언트 애플리케이션 구현하기/05-01-01-http_client.cpp:281-331 | with such a line every run fails the same way or goes on to the headers with the same code and message, however the bytes arrive |
| HttpClientLimits.UnsettledDependsOnTiming | Boost.Asio Study/Chapter-05-HTTP와 SSL TLS/Section-01-HTTP 클라이언트 애플리케이션 구현하기/05-01-01-http_client.cpp:281-385 | for every other line and every well-formed response there is a stream that begins with the line and is rejected or completes as that response, by how much of it arrives at once |
| HttpStatusLines.TimingFreeByWords | Boost.Asio Study/Chapter-05-HTTP와 SSL TLS/Section-01-HTTP 클라이언트 애플리케이션 구현하기/05-01-01-http_client.cpp:292-314 | the same condition on the words of the line, split at white space: there is a first word, and behind the expected version a second one |
| HttpStatusLines.OtherVersionIsRejected | Boost.Asio Study/Chapter-05-HTTP와 SSL TLS/Section-01-HTTP 클라이언트 애플리케이션 구현하기/05-01-01-http_client.cpp:292-299 | with a first word other than the expected version every run, however it goes, fails as an invalid response |
| HttpStatusLines.NoNumberIsRejected | Boost.Asio Study/Chapter-05-HTTP와 SSL TLS/Section-01-HTTP 클라이언트 애플리케이션 구현하기/05-01-01-http_client.cpp:301-312 | so does every run with a second word that has no digit at its beginning or behind its sign |
| HttpStatusLines.NumberIsCode | Boost.Asio Study/Chapter-05-HTTP와 SSL TLS/Section-01-HTTP 클라이언트 애플리케이션 구현하기/05-01-01-http_client.cpp:301-331 | a second word that begins with a number, sign or no sign, junk behind it or not, fails if the number is not below 2^32, and otherwise that number, negated modulo 2^32 behind a minus sign, is the code with which every run goes on to the headers |
| HttpStatusLines.KindsOfLines | Boost.Asio Study/Chapter-05-HTTP와 SSL TLS/Section-01-HTTP 클라이언트 애플리케이션 구현하기/05-01-01-http_client.cpp:292-314 | and every first line that timing has no influence on is of one of these kinds |
| Numbers.StoulOfNumber | Boost.Asio Study/Chapter-05-HTTP와 SSL TLS/Section-01-HTTP 클라이언트 애플리케이션 구현하기/05-01-01-http_client.cpp:306 | `std::stoul` of a word, against a printer of numbers: every number in every number of digits is read back |
| Numbers.NumberOf | Boost.Asio Study/Chapter-05-HTTP와 SSL TLS/Section-01-HTTP 클라이언트 애플리케이션 구현하기/05-01-01-http_client.cpp:306 | and every text that begins with a digit begins with such a number, so that the two kinds of word are all there are |
| HttpCancel.RunInv | Boost.Asio Study/Chapter-05-HTTP와 SSL TLS/Section-01-HTTP 클라이언트 애플리케이션 구현하기/05-01-01-http_client.cpp:177-394 | one driver at a time: in every state of every run the request is unstarted, waits for one operation, is in the hands of one thread, or is over, with operations started and completed in order and the mutex owned by exactly the thread inside its scope |
| HttpCancelProperties.OneOperationAtATime | Boost.Asio Study/Chapter-05-HTTP와 SSL TLS/Section-01-HTTP 클라이언트 애플리케이션 구현하기/05-01-01-http_client.cpp:177-377 | with `execute` called once, at most one operation is ever outstanding, and none while a handler still moves the request on |
| HttpCancelProperties.FinishedOnce | Boost.Asio Study/Chapter-05-HTTP와 SSL TLS/Section-01-HTTP 클라이언트 애플리케이션 구현하기/05-01-01-http_client.cpp:186-394 | `on_finish` runs at most once, and its code follows from the completions alone: the last operation's own error if it failed, but a success if it is the read of the body and reached the end of the connection; an invalid response if the status line did not parse; and otherwise an abort, and then the request was cancelled |
| HttpCancelProperties.SuccessExactly | Boost.Asio Study/Chapter-05-HTTP와 SSL TLS/Section-01-HTTP 클라이언트 애플리케이션 구현하기/05-01-01-http_client.cpp:186-394 | it reports success if and only if all six operations completed, and the read of the body ended well or at the end of the connection |
| HttpCancelProperties.OperationsInOrder | Boost.Asio Study/Chapter-05-HTTP와 SSL TLS/Section-01-HTTP 클라이언트 애플리케이션 구현하기/05-01-01-http_client.cpp:199-379 | resolve, connect, write, read status line, read headers, read body are started in this order, each at most once, and each completes before the next is started |
| HttpCancelProperties.CallbackIsUnlocked | Boost.Asio Study/Chapter-05-HTTP와 SSL TLS/Section-01-HTTP 클라이언트 애플리케이션 구현하기/05-01-01-http_client.cpp:186-192 | no thread holds the cancel mutex while it is in `on_finish`, so a callback that calls `cancel` does not block itself |
| HttpCancelProperties.NothingStartsAfterCancel | Boost.Asio Study/Chapter-05-HTTP와 SSL TLS/Section-01-HTTP 클라이언트 애플리케이션 구현하기/05-01-01-http_client.cpp:200-209 | once `cancel` has set the flag no operation is started any more, in any interleaving |
| HttpCancelProperties.CancelBeforeBodyIsNotLost | Boost.Asio Study/Chapter-05-HTTP와 SSL TLS/Section-01-HTTP 클라이언트 애플리케이션 구현하기/05-01-01-http_client.cpp:364-375 | if the flag is set before the read of the body is started, no callback of the run reports success |
| HttpLateCancel.LateCancelExactly | Boost.Asio Study/Chapter-05-HTTP와 SSL TLS/Section-01-HTTP 클라이언트 애플리케이션 구현하기/05-01-01-http_client.cpp:372-385 | in a reachable cancelled state without a callback so far, a run to a success still exists if and only if the read of the body has been started and has not failed |
| HttpLateCancel.LateCancelMayBeLost | Boost.Asio Study/Chapter-05-HTTP와 SSL TLS/Section-01-HTTP 클라이언트 애플리케이션 구현하기/05-01-01-http_client.cpp:372-385 | such a state is reachable: a run in which the flag is set during the read of the body and the callback reports success |
| HttpCancelProperties.InternalRunsEnd | Boost.Asio Study/Chapter-05-HTTP와 SSL TLS/Section-01-HTTP 클라이언트 애플리케이션 구현하기/05-01-01-http_client.cpp:177-394 | without new calls only boundedly many more steps are possible |
| HttpCancelProperties.StuckMeansFinished | Boost.Asio Study/Chapter-05-HTTP와 SSL TLS/Section-01-HTTP 클라이언트 애플리케이션 구현하기/05-01-01-http_client.cpp:186-394 | where no such step is possible an executed request has been reported exactly once |
| HttpServer.Service.Handle | Boost.Asio Study/Chapter-05-HTTP와 SSL TLS/Section-02-HTTP 서버 애플리케이션 구현하기/05-02-01-http_server.cpp:18-181 | for every stream, malformed or not, and every way its bytes arrive, the outcome is the function `Decide` of stream and ending; the service answers accordingly at most once, with a key of the status table and its text in the status line, and after a lookup with 404, 500 or 200 exactly if nothing is there, it cannot be opened, or it is found; it deletes itself exactly once; its handlers make a run of the step system in `ServerLife` |
| HttpServer.Service.OnRequestLineReceived | Boost.Asio Study/Chapter-05-HTTP와 SSL TLS/Section-02-HTTP 서버 애플리케이션 구현하기/05-02-01-http_server.cpp:34-72 | 501 for a first word other than GET, 505 for a third word other than HTTP/1.1, missing words included, the answer to a failed read, or the second word is stored and exactly the first line is consumed; on each path exactly one operation is started or the service is deleted, as the step system allows |
| HttpServer.Service.OnHeadersReceived | Boost.Asio Study/Chapter-05-HTTP와 SSL TLS/Section-02-HTTP 서버 애플리케이션 구현하기/05-02-01-http_server.cpp:74-96 | stores the headers of the buffered block and starts the answer 404, 500 or 200, exactly if nothing is there, it cannot be opened, or it is found, or answers or deletes after a failed read; on each path one of the ends the step system allows |
| HttpServer.Service.ProcessRequest | Boost.Asio Study/Chapter-05-HTTP와 SSL TLS/Section-02-HTTP 서버 애플리케이션 구현하기/05-02-01-http_server.cpp:98-119 | 404 if and only if nothing is under the path below the root, 500 if and only if what is there cannot be opened, 200 if and only if it is found, and then with its size |
| HttpServer.Service.ReadHeaders | Boost.Asio Study/Chapter-05-HTTP와 SSL TLS/Section-02-HTTP 서버 애플리케이션 구현하기/05-02-01-http_server.cpp:81-92 | the loop terminates on every buffer and stores what `HeaderLoop` defines |
| HttpServer.Service.ErrorCheck | Boost.Asio Study/Chapter-05-HTTP와 SSL TLS/Section-02-HTTP 서버 애플리케이션 구현하기/05-02-01-http_server.cpp:164-181 | a full buffer is answered 413, after any other error the service is deleted without an answer; each is the end that the step system gives it |
| HttpServer.Service.OnResponseSent | Boost.Asio Study/Chapter-05-HTTP와 SSL TLS/Section-02-HTTP 서버 애플리케이션 구현하기/05-02-01-http_server.cpp:148-162 | whether or not the write failed, the service is deleted, as the step system says |
| HttpDecisions.DecideExactly | Boost.Asio Study/Chapter-05-HTTP와 SSL TLS/Section-02-HTTP 서버 애플리케이션 구현하기/05-02-01-http_server.cpp:34-96 | for every stream with a CRLF within 4096 bytes: the words of its first line, wherever the white space is and however few they are, and what follows the line's first CR decide on 501, 505, the lookup of the second word, 413 or silence |
| HttpDecisions.NoLineExactly | Boost.Asio Study/Chapter-05-HTTP와 SSL TLS/Section-02-HTTP 서버 애플리케이션 구현하기/05-02-01-http_server.cpp:34-37 | for every other stream: 413 if there are 4096 bytes, and else no answer |
| HttpDecisions.RejectedExactly | Boost.Asio Study/Chapter-05-HTTP와 SSL TLS/Section-02-HTTP 서버 애플리케이션 구현하기/05-02-01-http_server.cpp:49-66 | for requests of three words: 501 if and only if the verb is not GET, 505 if and only if it is and the version is not HTTP/1.1, and otherwise nothing but the second word is looked up, if and only if a blank line follows in time |
| HttpDecisions.TooLargeExactly | Boost.Asio Study/Chapter-05-HTTP와 SSL TLS/Section-02-HTTP 서버 애플리케이션 구현하기/05-02-01-http_server.cpp:164-181 | the decision is 413 if and only if a delimiter is not within the first 4096 unread bytes, and there are that many, at the request line or at the headers behind an accepted request line |
| HttpDecisions.LaterBytesDoNotMatter | Boost.Asio Study/Chapter-05-HTTP와 SSL TLS/Section-02-HTTP 서버 애플리케이션 구현하기/05-02-01-http_server.cpp:34-96 | once the bytes suffice for an answer, nothing that follows them and no way of ending changes it |
| RoundTrip.UnderstoodExactly | Boost.Asio Study/Chapter-05-HTTP와 SSL TLS/Section-02-HTTP 서버 애플리케이션 구현하기/05-02-01-http_server.cpp:34-92 | for every non-empty URI and every host: whatever is buffered, the server takes the client's printed request as a GET of that URI with exactly the header HOST mapped to a space and the host, if and only if the URI has no white space, the host has no CR, and each part fits into 4096 bytes |
| RoundTrip.NoHeadersExactly | Boost.Asio Study/Chapter-05-HTTP와 SSL TLS/Section-02-HTTP 서버 애플리케이션 구현하기/05-02-01-http_server.cpp:34-96 | a request without headers is looked up if and only if another blank line follows within the buffer, answered 413 if it only fills the buffer, and otherwise not answered; by itself it is not |
| RoundTrip.NoHeadersStoredExactly | Boost.Asio Study/Chapter-05-HTTP와 SSL TLS/Section-02-HTTP 서버 애플리케이션 구현하기/05-02-01-http_server.cpp:84-92 | if it is looked up, headers are stored for it exactly if a colon is buffered behind its blank line |
| RoundTrip.Exchange | Boost.Asio Study/Chapter-05-HTTP와 SSL TLS/Section-01-HTTP 클라이언트 애플리케이션 구현하기/05-01-01-http_client.cpp:241-243 | client object and server object together: what the one prints the other understands and answers once, by what is under the URI, with a status line from the table, and deletes itself |
| RoundTrip.StatusLineIsRejected | Boost.Asio Study/Chapter-05-HTTP와 SSL TLS/Section-02-HTTP 서버 애플리케이션 구현하기/05-02-01-http_server.cpp:122-127 | for every status code, whatever follows and however it arrives, the client reports a response that begins with the server's status line as invalid |
| RoundTrip.StatusTexts | Boost.Asio Study/Chapter-05-HTTP와 SSL TLS/Section-02-HTTP 서버 애플리케이션 구현하기/05-02-01-http_server.cpp:196-204 | each text of the status table begins with its own code in three digits and a space |
| RoundTrip.SpaceIsAllThatIsMissing | Boost.Asio Study/Chapter-05-HTTP와 SSL TLS/Section-02-HTTP 서버 애플리케이션 구현하기/05-02-01-http_server.cpp:122-127 | with a space between version and text, and at least one header line, the client would take each status line for what it is, with its own code |
| HeaderLoops.ParsersAgreeExactly | Boost.Asio Study/Chapter-05-HTTP와 SSL TLS/Section-02-HTTP 서버 애플리케이션 구현하기/05-02-01-http_server.cpp:84-92 | on CR-free lines the server's loop stores what the client's loop stores if and only if no line with a colon follows a line without one |
| HeaderLoops.MergedNameIsStored | Boost.Asio Study/Chapter-05-HTTP와 SSL TLS/Section-02-HTTP 서버 애플리케이션 구현하기/05-02-01-http_server.cpp:84-92 | a line without a colon in front of one with a colon becomes part of a stored header name, which then contains a CR |
| HeaderLoops.StoredIsTimingFreeExactly | Boost.Asio Study/Chapter-05-HTTP와 SSL TLS/Section-02-HTTP 서버 애플리케이션 구현하기/05-02-01-http_server.cpp:84-92 | for a block whose lines with a colon come first, the server stores the client's header map, whatever is buffered behind the block, exactly if that has no colon |
| ServerLife.RunInv | Boost.Asio Study/Chapter-04-서버 애플리케이션 구현/Section-03-비동기 TCP 서버 구현하기/04-03-01-async_tcp_server.cpp:12-115 | in every state of every run, for both servers, each service has one keeper: its starter, its one outstanding operation, its one running handler, or nobody after its deletion; and the acceptor has one outstanding accept, one running handler, or is closed |
| ServerLifeProperties.AcceptorProtocol | Boost.Asio Study/Chapter-04-서버 애플리케이션 구현/Section-03-비동기 TCP 서버 구현하기/04-03-01-async_tcp_server.cpp:80-115 | at most one accept is outstanding, none starts after the acceptor closes, services are exactly the successful accepts whose handler has passed its first branch, and at most one service is created after `Stop` has stored its flag |
| ServerLifeProperties.OneServiceAfterStop | Boost.Asio Study/Chapter-04-서버 애플리케이션 구현/Section-03-비동기 TCP 서버 구현하기/04-03-01-async_tcp_server.cpp:85-115 | that one service is possible |
| ServerLifeProperties.ServiceOwnership | Boost.Asio Study/Chapter-04-서버 애플리케이션 구현/Section-03-비동기 TCP 서버 구현하기/04-03-01-async_tcp_server.cpp:16-53 | a service is deleted at most once; while it lives it has exactly one outstanding operation or exactly one thread works on it, afterwards neither; it starts at most one response |
| ServerLifeProperties.Served | Boost.Asio Study/Chapter-05-HTTP와 SSL TLS/Section-02-HTTP 서버 애플리케이션 구현하기/05-02-01-http_server.cpp:25-162 | a worker that runs the whole handler of a completed operation changes nothing but its service, and that as the handlers' contracts say |
| ServerLifeProperties.DrainedMeansDeleted | Boost.Asio Study/Chapter-05-HTTP와 SSL TLS/Section-02-HTTP 서버 애플리케이션 구현하기/05-02-01-http_server.cpp:25-162 | where no handler runs and no operation is outstanding, every service has been deleted, once |
| ServerLifeDrain.InternalRunsEnd | Boost.Asio Study/Chapter-04-서버 애플리케이션 구현/Section-03-비동기 TCP 서버 구현하기/04-03-01-async_tcp_server.cpp:12-115 | for both servers, without new connections and calls of `Stop` only boundedly many more steps are possible |
| ServerLifeDrain.StuckMeansDeleted | Boost.Asio Study/Chapter-04-서버 애플리케이션 구현/Section-03-비동기 TCP 서버 구현하기/04-03-01-async_tcp_server.cpp:16-53 | where no such step is possible and there is a worker, every service has been deleted, exactly once, with no operation outstanding |
| AsyncTcpServer.Acceptor.OnAccept | Boost.Asio Study/Chapter-04-서버 애플리케이션 구현/Section-03-비동기 TCP 서버 구현하기/04-03-01-async_tcp_server.cpp:99-115 | the acceptor object and the new service object, if the accept succeeded, show the state after the undisturbed accept handler of the step system |
| AsyncTcpServer.Service.OnRequestReceived | Boost.Asio Study/Chapter-04-서버 애플리케이션 구현/Section-03-비동기 TCP 서버 구현하기/04-03-01-async_tcp_server.cpp:25-40 | deletes itself on an error, and otherwise starts the write of the response, as the step system's handler does |
| AsyncTcpServer.AcceptRuns | Boost.Asio Study/Chapter-04-서버 애플리케이션 구현/Section-03-비동기 TCP 서버 구현하기/04-03-01-async_tcp_server.cpp:99-115 | one accept handler creates a service exactly on success, and either starts the next accept or closes the acceptor |
| Transfers.WriteToSocket | Boost.Asio Study/Chapter-02-IO 연산/Section-03-TCP 소켓에서 동기적으로 쓰기/02-03-01-sync_write.cpp:9-15 | for every sequence of short writes the loop ends and the wire holds exactly the counted prefix of the buffer; it reports success exactly if that is the whole buffer |
| Transfers.WriteToSocketEnhanced | Boost.Asio Study/Chapter-02-IO 연산/Section-03-TCP 소켓에서 동기적으로 쓰기/02-03-01-sync_write.cpp:17-19 | the one-shot write meets the same specification |
| Transfers.WriteSession.constructor | Boost.Asio Study/Chapter-02-IO 연산/Section-05-TCP 소켓에서 비동기적으로 쓰기/02-05-01-asnyc_write.cpp:35-46 | the session starts with nothing counted, one operation outstanding, and the wire as it was |
| Transfers.WriteSession.Callback | Boost.Asio Study/Chapter-02-IO 연산/Section-05-TCP 소켓에서 비동기적으로 쓰기/02-05-01-asnyc_write.cpp:16-33 | counts what was transferred and starts the next operation exactly if something is left and nothing failed; in each case the wire holds exactly the counted prefix |
| Transfers.WriteSession.Run | Boost.Asio Study/Chapter-02-IO 연산/Section-05-TCP 소켓에서 비동기적으로 쓰기/02-05-01-asnyc_write.cpp:16-46 | the chain ends and meets the specification of the loop and of the one-shot write, errors included |
| Transfers.ReadFromSocket | Boost.Asio Study/Chapter-02-IO 연산/Section-04-TCP 소켓에서 동기적으로 읽기/02-04-01-sync_read.cpp:9-19 | for every buffer size and every sequence of short reads the loop stores exactly the first bytes of the stream and leaves the rest unread; if the stream is shorter it stops with its ending |
| Transfers.ReadFromSocketEnhanced | Boost.Asio Study/Chapter-02-IO 연산/Section-04-TCP 소켓에서 동기적으로 읽기/02-04-01-sync_read.cpp:21-28 | the one-shot read has the same result |
| Transfers.ReadInto | Boost.Asio Study/Chapter-02-IO 연산/Section-04-TCP 소켓에서 동기적으로 읽기/02-04-01-sync_read.cpp:14-16 | a short read writes only behind the bytes already stored and within the buffer |
| Transfers.ReadSession.Callback | Boost.Asio Study/Chapter-02-IO 연산/Section-06-TCP 소켓에서 비동기적으로 읽기/02-06-01-asnyc_read.cpp:17-34 | counts what was transferred and starts the next operation exactly if the buffer is not full and nothing failed; in each case the counted prefix of the buffer is the prefix of the stream and the rest is unread |
| Transfers.ReadSession.Run | Boost.Asio Study/Chapter-02-IO 연산/Section-06-TCP 소켓에서 비동기적으로 읽기/02-06-01-asnyc_read.cpp:17-50 | the chain ends with the result of the loop and of the one-shot read |
| Transfers.ReadFromSocketDelim | Boost.Asio Study/Chapter-02-IO 연산/Section-04-TCP 소켓에서 동기적으로 읽기/02-04-01-sync_read.cpp:30-41 | the line is the stream's first one for every chunking, while what had arrived behind it is lost with the local buffer |

## Left out

- Boost.Asio, DNS, the scheduler and the operating system, beyond the contracts above. Calls that could throw (`open`, `shutdown` without an error code, `m_sock.cancel()`) are taken not to.
- Data races on a socket object that `cancelRequest` or `cancel` and a handler use at once: only mutexes, flags, tables and operations are modelled.
- The step systems (`TcpClient`, `HttpCancel`, `ServerLife`) are on values, because their threads interleave inside the methods; sessions, services and threads are indices. The objects in `TcpClientCode`, `HttpClient`, `HttpServer` and `AsyncTcpServer` show the updates in place; sharing through `shared_ptr` beyond that is not modelled.
- HttpCancel: abstracts from what is parsed, and takes every handler to end; by `HttpClientHangs.ReceiveHangsExactly` the header loop need not, and then the request is never reported.
- The `unsigned char` loop that starts the TCP client's threads: it does not end for 255; the model starts with any number of workers but at least one.
- The conversion of an `unsigned int` id to the `int` key of the session table: it maps different ids to different keys, and the model uses one type for both.
- The TCP client's response buffer: a read completes with its line.
- Sessions that hold an open call of `emulateLongComputationOp` when `close` returns: `TcpClientClose` speaks of those whose connect was started.
- `std::stoul` with another width than the 32-bit `unsigned long` of the Windows target.
- HttpServer.Service.Handle: the stored headers, unlike the decision, depend on how much is buffered behind the blank line; its contract names that amount, and `HeaderLoops.StoredIsTimingFreeExactly` says exactly when it matters if the lines with a colon come first.
- The server's reading of files and the bytes of its responses behind the status line: the file system is a parameter that says missing, unreadable or found with a size, and the resource buffer is never allocated.
- `io_service.stop()` in the servers' `Stop`: it discards handlers, so deletion is claimed for runs that drain.
- The lifetime of `HTTPRequest` beyond its handlers, which capture a raw `this`.
- Console output, sleeps, delay loops, setters and getters, and every `main`.
- Chapters 1 and 6, the SSL samples, the UDP client and the synchronous servers: they would only add easy members.
