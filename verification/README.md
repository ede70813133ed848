# Verification of the LinuxNetProgramming servers

A Dafny model of the state machines in this collection of Linux network programs, and proofs of what
they keep over every input, every split of the input and every interleaving. System calls are oracles:
their results are parameters or nondeterministic choices, restricted only by what the kernel guarantees.

| files | program | what is proved |
|---|---|---|
| `CStrings`, `Numbers`, `HttpParser`, `HttpChunking`, `HttpRuns`, `HttpRequestLine`, `HttpRequest`, `HttpResponse`, `HttpConn`, `HttpBodies`, `HttpVerdict` | `webserver_ys/http_conn.cpp` | the incremental request parser gives the same result however the bytes are split between reads, and it is what a reference that only looks at the list of lines says; captured strings stay put; the grammar of request lines; which input is refused as bad, over every split; every reply is framed and says what the request and the file system ask for; what a body and its length can do |
| `WebServer`, `WebServerSafety`, `WebServerReplies`, `WebServerCrossing`, `WebServerDescriptors` | `webserver_ys/threadpool.hpp`, `main.cpp` and the open, re-arm and close points of `http_conn.cpp` | exclusive ownership of connections under EPOLLONESHOT, with the exact step that ends it; what a connection is armed for and when main closes it; semaphore and queue agree; when the index of a new connection is in bounds |
| `TaskRing`, `ThreadPool`, `ThreadPoolSafety`, `ThreadPoolShrink`, `ThreadPoolGrowth`, `ThreadPoolLostWakeup` | `test_thread_pool/thread_pool.c` | FIFO delivery, conservation of tasks, pool sizing, how far a shrink request, a growing pass and a shutdown go, nobody sleeps on work |
| `PercentCodec`, `LineReader` | `test_http_server/epoll_server/server.c` | percent codec round trip and bounds, decoding in place, line-ending normalisation |
| `Reactor`, `ReactorClients`, `ReactorDescriptors`, `ReactorServer` | `test_epoll_reactor/epoll_reactor_server.c` | slot table and epoll tree agree, clients stay until their connection ends, no descriptor is leaked but those given up at accept, echo conservation, timeout sweep coverage |
| `SelectServers`, `SelectAgreement` | `test_select/server_1.c`, `server.c` | over any number of rounds the indexed server handles what the plain server handles |
| `BufferedReader` | `test_wrap/wrap.c` | buffered `Readline` refines the raw byte stream |

Code that updates objects in place is a class whose methods change its fields and arrays; each method is
proved equal to a function on values, and the theorems are about those functions. The two thread pools
and the hand-off between main and workers are transition systems with a program counter per thread, one
step per access to shared state, and an explicit lock owner.

In the request parser a `char` stands for one byte; `data` is the read buffer up to `m_read_idx`. A
`GetRequest` verdict of `ProcessRead` is the point at which the source calls `do_request`. The codec and
the readers use a numeric `byte`.

`Runs` has the runs of a transition system, `Sequences` counting; they serve several programs.

Where a promise has an exception, the exception is stated as a lemma with its exact condition, and most have an input or a run that shows it:

* a body split between reads: the split shows unless the scan stays where the body starts (`HttpChunking.SplitBody`,
  `HttpChunking.SplitBodyAgreesIff`; a request, `HttpBodies.SplitDiffers`);
* a negative Content-Length, which lets the terminator of the body reach a captured string (`HttpRuns.CapturedStable`,
  `HttpChunking.TerminatorReach`) or the request line that `do_request` relies on (`HttpRuns.FeedKeeps`; a request,
  `HttpBodies.UrlErased`), or leave the buffer, as a body that ends with a full buffer does
  (`HttpConn.TerminatorInBuffer`; requests, `HttpBodies.TerminatorBelow` and `HttpBodies.TerminatorAbove`);
* a printed file size that does not fit an int, and the empty file (`HttpResponse.FileReply`, `HttpResponse.RepliesIff`);
* the shrink exit that leaves a queued task without an awake worker (`ThreadPoolSafety.AttendedStepIff`, which like the
  promise it limits is about a pool before shutdown; a run that gets there, and stays there,
  `ThreadPoolLostWakeup.WakeupLost` and `ThreadPoolLostWakeup.StuckStays`);
* a connection accepted on the number of one that a worker has closed and not left yet, which a failed `process_write`
  makes possible (`WebServerSafety.SharedStepIff` for one step, `WebServerSafety.ExclusiveIff` for whole runs; runs,
  `WebServerCrossing.FailedWriteOverlaps`, `WebServerCrossing.LateModfdRearms` and `WebServerCrossing.CountedOutTwice`);
* the bound on m_user_count, which does not bound the index of a new connection (`WebServerDescriptors.IndexInBounds`;
  a run, `WebServerDescriptors.IndexOutOfBounds`);
* partial sends in the reactor (`Reactor.GoodSend`);
* the connections acceptconn gives up on without closing them (`ReactorDescriptors.NoneLeaked`).

## Model

| member | source | states |
|---|---|---|
| HttpChunking.ChunkingIndependence | webserver_ys/http_conn.cpp:228-280 | for every byte string and every split into reads, calling process_read after each read until it reports something or ends in a body gives the verdict, state, captured strings, flags, content length and positions of one call on the whole; when it ends inside a body not yet complete, the state, strings, flags and content length |
| HttpChunking.FeedAgrees | webserver_ys/http_conn.cpp:228-280 | the same from any state in which the parser may be between two calls, bodies apart |
| HttpChunking.SameEntry | webserver_ys/http_conn.cpp:228-280 | a run that ends inside a body and the single call on the whole have entered that body at the same position in the same state, so that SplitBody compares their verdicts |
| HttpChunking.CallAppend | webserver_ys/http_conn.cpp:228-280 | bytes that arrive after a call instead of before it do not change what the call and its successor compute together |
| HttpChunking.StallIsFinal | webserver_ys/http_conn.cpp:95-117 | a call that ran out of input, repeated without input, changes nothing, also when it stopped at a bad line or at a trailing CR |
| HttpChunking.ParseLineResumes | webserver_ys/http_conn.cpp:95-117 | an interrupted line scan resumes where it stopped with the outcome of a scan from the start |
| HttpChunking.SplitBody | webserver_ys/http_conn.cpp:217-225 | for every received part of a body, whatever bytes it holds, and every continuation: the next call completes the body exactly when it reaches Content-Length counted from where the scan stopped, a single call when it does so counted from the start of the body |
| HttpChunking.SplitBodyAgreesIff | webserver_ys/http_conn.cpp:217-225 | a split inside a body does not show in the verdict, for every continuation, if and only if the part received before it is empty, or starts with an LF or with a CR that no LF follows |
| HttpBodies.SplitDiffers | webserver_ys/http_conn.cpp:217-225 | a request with a line break in its body that completes in one read and does not when its last byte comes in a second one |
| HttpChunking.LineOkMeansCrlf | webserver_ys/http_conn.cpp:95-117 | a complete line ends at a CRLF that is its first CR or LF, its bytes are as received, and the LF-after-CR branch is never the one that succeeds |
| HttpChunking.CallKeeps | webserver_ys/http_conn.cpp:228-280 | one call keeps the index and line-scan invariant and the accepted URL and version pointers, and the strings they point to when the resulting content length is not negative; do_request is reached with an accepted request line if and only if the terminator written after a body spared it, which it does for every length that is not negative |
| HttpRuns.FeedKeeps | webserver_ys/http_conn.cpp:121-280 | over whole runs, from any state between two calls and through bodies that arrive in pieces: the invariant between calls; do_request with GET, HTTP/1.1 in any case and a URL starting with '/' if and only if the terminator of the body, if there is one, is neither at the first byte of the URL nor inside the version, so always when the resulting content length is not negative |
| HttpRuns.CapturedStable | webserver_ys/http_conn.cpp:95-280 | once accepted, m_url and m_version are the same over every later read and call up to do_request, bodies in pieces included, and so are the strings at m_url, m_version and an m_host already set: each if and only if no body was finished by a terminator inside it, so all of them whenever the resulting content length is not negative |
| HttpRuns.FeedFrozen | webserver_ys/http_conn.cpp:95-280 | over every later read and call up to do_request, bodies in pieces included, the bytes before the current line change by nothing but the terminator of a body, and by nothing at all when the resulting content length is not negative |
| HttpRuns.HeldStable | webserver_ys/http_conn.cpp:95-280 | over the same runs, without a condition on the length: a captured string is the same at the end if and only if no body was finished by a terminator inside it |
| HttpRuns.BodyStable | webserver_ys/http_conn.cpp:217-280 | from any state inside an incomplete body, any number of further reads and calls keeps the request accepted and changes no captured string and no byte before the body |
| HttpRuns.FeedHeadIsFeed | webserver_ys/http_conn.cpp:228-280 | the run of the chunking theorem is the whole run unless it ends inside a body |
| HttpChunking.TerminatorReach | webserver_ys/http_conn.cpp:217-221 | the terminator written after the body changes a captured string if and only if it lands inside it |
| HttpChunking.BodyAccepts | webserver_ys/http_conn.cpp:217-221 | in the state before a complete body's terminator is written: the request is still accepted afterwards if and only if the terminator is neither at the first byte of the URL nor inside the version |
| HttpBodies.UrlErased | webserver_ys/http_conn.cpp:199-225 | a printed request with a negative Content-Length for which do_request is called with an empty URL, so the condition of FeedKeeps can fail |
| HttpBodies.CompleteBody | webserver_ys/http_conn.cpp:180-225 | every printed request whose one header is any Content-Length an int holds, with that many bytes following: the verdict, and the index its terminator is written at |
| HttpChunking.BodyOutcome | webserver_ys/http_conn.cpp:217-225 | what the content state does with a body wholly in the buffer, and that an incomplete one leaves everything before it alone |
| HttpRequestLine.AcceptanceIff | webserver_ys/http_conn.cpp:142-177 | a request line is accepted if and only if it is GET, blanks, target, blanks, HTTP/1.1, with a target that is a path or an absolute http URL with a path |
| HttpRequestLine.AcceptsGrammar | webserver_ys/http_conn.cpp:142-177 | every line of that grammar is accepted and captures its resource (the path of an absolute URL) and version |
| HttpRequestLine.OnlyAcceptsGrammar | webserver_ys/http_conn.cpp:142-177 | an accepted line decomposes into that grammar |
| HttpRequestLine.PrintThenParse | webserver_ys/http_conn.cpp:142-177 | printing any well-formed request line with its CRLF and running process_read on it yields the header state with the printed resource and version |
| HttpRequestLine.CutTokenFinds | webserver_ys/http_conn.cpp:143-148 | the strpbrk and strspn idiom splits a C string into word, blanks and rest |
| HttpRequestLine.LocateTargetText | webserver_ys/http_conn.cpp:167-173 | the pointer moved past scheme and authority is the path of the target, and exists exactly when the target has one |
| HttpRequest.RequestMeansItsLines | webserver_ys/http_conn.cpp:142-280 | a printed request with any clean header lines and any following bytes: linger flag and length are what the lines say, do_request is called at the blank line without a body, and with one exactly when that many bytes follow; URL, version and host are what the lines say, each one, if the length is negative, if and only if the position that many bytes before the end of the head is outside it |
| HttpRequest.SplitRequestMeansItsLines | webserver_ys/http_conn.cpp:121-280 | the same for every split of such a request without a body into reads |
| HttpRequest.AllHeaders | webserver_ys/http_conn.cpp:180-214 | the loop over the header lines gathers the reference's summary: keep-alive remembered, last length and last host kept, other headers ignored |
| HttpRequest.OneHeader | webserver_ys/http_conn.cpp:180-214 | one header line in the buffer has the effect the reference gives its text, and keeps URL and version |
| HttpVerdict.BadInputIff | webserver_ys/http_conn.cpp:142-280 | on every input, one call on a fresh connection returns BAD_REQUEST if and only if the first line is complete and, read as a C string, is no request line of the grammar, whatever follows it |
| HttpVerdict.SplitBadInputIff | webserver_ys/http_conn.cpp:121-280 | the same over every split of the input into reads |
| HttpVerdict.BadInputAnswered | webserver_ys/http_conn.cpp:407-482 | the call at which such input is complete turns the connection to writing, with a reply that reads as 400 "Bad Request" with its page |
| HttpVerdict.LineStatuses | webserver_ys/http_conn.cpp:95-117 | parse_line reports a complete line exactly at a CRLF, an open one exactly at the end of the data or a CR that is its last byte, a bad one at any other CR or LF |
| HttpVerdict.RequestAnswered | webserver_ys/http_conn.cpp:121-482 | from the request to the reply, over every split: a printed request without a body is answered by what the file system says of the document root followed by its resource (404, 403, 400 for a directory, nothing for an empty file, else 200 with the file), with the linger flag its lines ask for |
| HttpVerdict.BodyRequestAnswered | webserver_ys/http_conn.cpp:142-482 | the same for a printed request whose body is there |
| HttpVerdict.ResourceAnswered | webserver_ys/http_conn.cpp:284-308 | any call that reaches do_request with a resource looks up the document root followed by that resource, cut so that the path and its NUL fit 200 bytes, and answers by the file's status |
| HttpVerdict.MethodCases | webserver_ys/http_conn.cpp:151-156 | the spellings of the method that are taken, letter by letter |
| HttpVerdict.VersionCases | webserver_ys/http_conn.cpp:161-164 | the spellings of the version that are taken |
| CStrings.EqNoCaseIff | webserver_ys/http_conn.cpp:151-163 | two strings are equal in any case if and only if they are as long and differ at most in the case of letters of the alphabet |
| HttpResponse.ErrorReads | webserver_ys/http_conn.cpp:383-437 | the reply to each error verdict, cut at its first CRLF, has a first line of three words: HTTP/1.1, a number read back as 400, 403, 404 or 500, and the title; then a header block the request parser reads back as the linger flag and the length of the page |
| HttpResponse.FileReads | webserver_ys/http_conn.cpp:383-450 | the same for a file reply followed by its file, with 200 and OK |
| HttpResponse.ErrorReply | webserver_ys/http_conn.cpp:407-437 | every error reply is complete and untruncated: status line, headers with the page's own length, blank line, page, below the last byte of the buffer; what its first line says is in ErrorReads |
| HttpResponse.FileReply | webserver_ys/http_conn.cpp:438-450 | a file reply is a complete head followed by the file, and the printed length is the file's exactly when the size fits an int; what its first line says is in FileReads |
| HttpResponse.RepliesIff | webserver_ys/http_conn.cpp:407-468 | which outcomes produce a reply: the error codes and non-empty files, nothing else |
| HttpResponse.ReadsBack | webserver_ys/http_conn.cpp:386-401 | the server's own header parser, run on a reply's header block and body, reads back the linger flag and a content length equal to the bytes after the blank line |
| HttpResponse.LengthHeader | webserver_ys/http_conn.cpp:393-395 | the printed Content-Length line is read back by parse_headers as the same number |
| Numbers.AtolReadsDecimal | webserver_ys/http_conn.cpp:204 | atol reads back what %d printed, wherever the digits end, and saturates at the largest long |
| HttpConn.Conn.Read | webserver_ys/http_conn.cpp:121-139 | a read appends exactly the delivered bytes and succeeds exactly when it ends because the socket would block |
| HttpConn.Conn.ParseLine | webserver_ys/http_conn.cpp:95-117 | the scanning loop on the buffer computes the line function the theorems are about |
| HttpConn.Conn.CutToken | webserver_ys/http_conn.cpp:143-148 | the in-place cut writes one NUL and finds the next word |
| HttpConn.Conn.ParseRequestLine | webserver_ys/http_conn.cpp:142-177 | the in-place request line parser equals the function proved to accept the grammar |
| HttpConn.Conn.ParseHeaders | webserver_ys/http_conn.cpp:180-214 | the header parser equals the function proved about |
| HttpConn.Conn.ParseContent | webserver_ys/http_conn.cpp:217-225 | the body test and its terminator write: the buffer changes at the one index when it lies in the buffer, and not at all otherwise, where the source writes outside it |
| HttpConn.TerminatorInBuffer | webserver_ys/http_conn.cpp:217-221 | on the state before parse_content: its write is in the 2048-byte buffer unless the content length is less than minus the line start, or the body ends exactly at the end of a full buffer, one byte too far |
| HttpBodies.TerminatorBelow | webserver_ys/http_conn.cpp:217-221 | a printed request whose terminator would be written 59 bytes before the buffer |
| HttpBodies.TerminatorAbove | webserver_ys/http_conn.cpp:217-221 | printed requests that fill the buffer, whose terminator would be written to the byte after it |
| HttpConn.Conn.ProcessRead | webserver_ys/http_conn.cpp:228-280 | the master loop with line_status computes the function of the chunking theorem, whose verdicts BadInputIff and RequestMeansItsLines pin, with the index bounds of the 2048-byte buffer kept |
| HttpConn.Conn.Receive | webserver_ys/http_conn.cpp:121-280 | a request that arrives in several reads into the buffer is the run of the theorems, and ends as if it had arrived in one read unless one of the reads ends inside its body |
| HttpConn.Conn.Init | webserver_ys/http_conn.cpp:75-92 | after init the parser is in its fresh state and nothing is left to write |
| HttpConn.Conn.AddResponse | webserver_ys/http_conn.cpp:365-381 | a formatted string is taken whole or not at all, and the write index stays in the buffer |
| HttpConn.Conn.ProcessWrite | webserver_ys/http_conn.cpp:407-468 | the reply built in the write buffer is the one the framing theorems describe |
| HttpConn.Conn.Process | webserver_ys/http_conn.cpp:471-482 | a worker's handling of a connection: verdict, reply, close on failure, and the event it is re-armed for |
| HttpConn.EveryReplyFramed | webserver_ys/http_conn.cpp:284-482 | from any state of the parser, a connection that turns to writing has a whole framed reply, the error page of exactly that verdict or the file, or an empty file was asked for; from any state between two calls do_request is reached with an accepted request line exactly as FeedKeeps says |
| HttpConn.EveryRunFramed | webserver_ys/http_conn.cpp:121-482 | the same for the call that ends any run of reads from a fresh connection, however they split head and body |
| WebServerSafety.OwnershipIsExclusive | webserver_ys/main.cpp:80-121 | in every interleaving, failed process_writes included, each connection not accepted while its number was in use is, while open, in exactly one of epoll, main, the queue and one worker unless its append was refused, and nowhere once closed; nobody else touches a connection a worker is in, until the worker has left process() |
| WebServerSafety.SharedStepIff | webserver_ys/http_conn.cpp:56-62 | a step puts a connection into two hands if and only if it accepts one on a number while a worker that has closed it is still in process() |
| WebServerSafety.ExclusiveIff | webserver_ys/main.cpp:80-121 | over whole runs from the start: a number has at most one owner in every state passed if and only if no step of the run is such an accept |
| WebServerSafety.ExclusiveWhenWritesSucceed | webserver_ys/http_conn.cpp:477-481 | in runs without a failed process_write every number has at most one owner throughout |
| WebServerSafety.OnePlaceStep | webserver_ys/main.cpp:80-121 | every step of main and of a worker, closing and failing ones included, keeps each connection that was not accepted on a number in use in one place |
| WebServerSafety.WaitMoves | webserver_ys/main.cpp:81-87 | epoll_wait with EPOLLONESHOT moves each returned connection from epoll to main |
| WebServerSafety.MainMoves | webserver_ys/main.cpp:86-120 | accept, init, read, write, append and close each keep every connection in one place and registered, and an accept on a number nobody has puts it in one whatever was before |
| WebServerSafety.WorkerMoves | webserver_ys/threadpool.hpp:95-111 | pop, processing, re-arming, a failed process_write, close_conn and the modfd after it each keep every connection in one place and registered; what they arm it for is in ArmedForReply |
| WebServerReplies.ArmedForReply | webserver_ys/http_conn.cpp:319-362 | in every reachable state, for each connection not accepted on a number in use: if armed, it is armed for output exactly when a reply built for it is not sent yet, as write counts it; main writes only such a connection and reads only others, workers have only others; a waiting reply is armed for output or already with main, unless the queue refused the connection; main is closing a connection exactly when it has seen a fault, a failed read or write, or the end of a reply without keep-alive, and has closed it before its next event |
| WebServerReplies.RefusedIff | webserver_ys/threadpool.hpp:74-85 | a connection is refused exactly by an append that finds one request more than max_requests queued |
| WebServerSafety.RegisteredMain | webserver_ys/http_conn.cpp:25-48 | addfd, modfd and removefd keep the epoll table equal to the open connections that are past addfd, and m_sockfd set in their objects |
| WebServerSafety.UsersMain | webserver_ys/http_conn.cpp:56-73 | m_user_count never exceeds MAX_FD, and counts the registered connections and those a worker has closed and not counted out, as long as no connection was accepted on a number in use |
| WebServerDescriptors.IndexInBounds | webserver_ys/main.cpp:91-101 | with accept returning the least number not in use, users[connfd] is in bounds if and only if some number below MAX_FD is not in use, so whenever the users counted and the descriptors of other kinds together are fewer than MAX_FD |
| WebServerDescriptors.IndexOutOfBounds | webserver_ys/main.cpp:96-101 | a run in which the test of m_user_count passes with five other descriptors open and connfd is MAX_FD, so the test alone is not enough |
| WebServerSafety.SemaphoreAccounts | webserver_ys/threadpool.hpp:74-111 | in every run: queue length equals semaphore value plus woken workers plus pending posts when waits succeed (then the empty recheck never fires), is never more whatever waits fail, and stays within max_requests + 1; m_user_count as in UsersMain |
| WebServerSafety.BalancedWorker | webserver_ys/threadpool.hpp:95-111 | waits, pops and early returns keep the account between queue and semaphore |
| WebServerCrossing.FailedWriteOverlaps | webserver_ys/http_conn.cpp:477-481 | a run in which a failed process_write lets main and a worker work on the same connection object |
| WebServerCrossing.LateModfdRearms | webserver_ys/http_conn.cpp:477-481 | a run in which the modfd after close_conn arms a new connection that main is reading, so that epoll_wait can return it twice |
| WebServerCrossing.CountedOutTwice | webserver_ys/http_conn.cpp:56-62 | the run goes on until main and a worker both close that connection and m_user_count is -1 with no connection left, so the condition on the count cannot be dropped |
| TaskRing.PutAppends | test_thread_pool/thread_pool.c:312-318 | a put appends to the queue and writes no slot that holds a queued task |
| TaskRing.TakeRemoves | test_thread_pool/thread_pool.c:187-191 | a take removes the oldest task |
| TaskRing.TaskQueue.Add | test_thread_pool/thread_pool.c:308-318 | the critical section of threadpool_add appends to the queue held in the array |
| TaskRing.TaskQueue.Remove | test_thread_pool/thread_pool.c:187-191 | the critical section of threadpool_thread removes the oldest task |
| ThreadPoolSafety.TasksAreSafe | test_thread_pool/thread_pool.c:159-212 | in every reachable state tasks are delivered in the order accepted, each once, none lost; a worker about to take finds a task although shutdown is written without the lock |
| ThreadPoolSafety.PoolIsSized | test_thread_pool/thread_pool.c:116-157 | in every reachable state the counters are within bounds and count what they name, every unterminated thread keeps its slot, and at most max_thread_num threads exist; what wait_exit_thread_num counts is in ShrinkUnits |
| ThreadPoolShrink.ShrinkUnits | test_thread_pool/thread_pool.c:146-180 | over any run from the start, wait_exit_thread_num is 0 before the first shrink request and then ten less the workers' tests that have found it positive since the last one |
| ThreadPoolShrink.TenPerRequest | test_thread_pool/thread_pool.c:146-180 | over any run, at most ten threads have taken the shrink exit for each request made, and never so many that fewer than min_thread_num are left |
| ThreadPoolShrink.ManagerDecides | test_thread_pool/thread_pool.c:116-149 | the manager leaves exactly when it finds shutdown at the top, grows exactly with ten tasks queued below the maximum, and asks for a shrink exactly with fewer threads busy than idle above the minimum |
| ThreadPoolShrink.ShutdownStops | test_thread_pool/thread_pool.c:159-322 | once shutdown is set, whatever happens: at most one more task is delivered and one more accepted, and no thread goes to sleep |
| ThreadPoolShrink.NoneAsleep | test_thread_pool/thread_pool.c:92-98 | after one broadcast in a pool shut down no worker is ever asleep again |
| ThreadPoolGrowth.TenPerGrowth | test_thread_pool/thread_pool.c:128-145 | over any run from the start, no more threads are created than the minimum and ten for each time the manager finds reason to grow |
| ThreadPoolGrowth.GrowthComplete | test_thread_pool/thread_pool.c:130-145 | when a growing loop ends, whatever the other threads did: it has added the threads it counted, at most ten, and if fewer the pool is at its maximum or no slot is free |
| ThreadPoolGrowth.GrowTurn | test_thread_pool/thread_pool.c:135-143 | a turn creates a thread exactly when the slot is free or its thread is gone, and stores it in that slot |
| ThreadPoolGrowth.ManagerLeaves | test_thread_pool/thread_pool.c:116-157 | after a shutdown the manager starts no pass, so no thread is created and no shrink requested |
| ThreadPoolSafety.NeverAllAsleep | test_thread_pool/thread_pool.c:167-169 | a producer asleep means a full queue, in every reachable state; before shutdown and without a shrink request a queued task means an awake worker, so workers and producers are then never all asleep |
| ThreadPoolSafety.AttendedStepIff | test_thread_pool/thread_pool.c:172-180 | before shutdown a step leaves a queued task with no awake worker if and only if it is the shrink exit of the last awake worker |
| ThreadPoolLostWakeup.WakeupLost | test_thread_pool/thread_pool.c:146-155 | a run in which a shrink request leaves a task queued with one worker asleep, the other gone and the manager back at the top of its loop, so shrink requests have to be excluded |
| ThreadPoolLostWakeup.StuckStays | test_thread_pool/thread_pool.c:116-157 | from there no run of the pool's own threads without a spurious wakeup ever takes the task: only a new call of threadpool_add or a shutdown can help |
| ThreadPoolSafety.ExclusiveStep | test_thread_pool/thread_pool.c:159-212 | mutual exclusion: a thread is in a critical section exactly when it owns the lock |
| ThreadPoolSafety.GuardedStep | test_thread_pool/thread_pool.c:296-322 | what a thread tested under the lock still holds when it acts, because the lock protects the queue and shutdown only rises |
| ThreadPoolSafety.FifoStep | test_thread_pool/thread_pool.c:308-318 | every step keeps accepted tasks equal to delivered ones followed by the ring's contents |
| ThreadPoolSafety.ConservedStep | test_thread_pool/thread_pool.c:187-212 | every delivered task stays in one worker's hands until its routine returns |
| ThreadPoolSafety.SizedStep | test_thread_pool/thread_pool.c:122-153 | growing, shrinking and working keep the thread counters true and bounded |
| ThreadPoolSafety.TabledStep | test_thread_pool/thread_pool.c:135-144 | the manager never writes over the slot of a thread that has not terminated |
| PercentCodec.DecodeEncode | test_http_server/epoll_server/server.c:362-398 | decoding undoes encoding for every byte string |
| PercentCodec.PlainIff | test_http_server/epoll_server/server.c:362-375 | exactly letters, digits and "/_.-~" are encoded as themselves |
| PercentCodec.EscapeOf | test_http_server/epoll_server/server.c:362-375 | every other byte becomes a percent sign and its two lower-case hexadecimal digits |
| PercentCodec.DecodeEscape | test_http_server/epoll_server/server.c:378-398 | an escape decodes to the byte its two digits name, each of them in either case |
| PercentCodec.DecodePlain | test_http_server/epoll_server/server.c:388-398 | whatever is not a percent sign before two hexadecimal digits stands for itself |
| PercentCodec.BoundedEncoding | test_http_server/epoll_server/server.c:362-375 | the bounded encoder's output fits with its NUL, never splits an escape, and decodes to a prefix of the input |
| PercentCodec.WholeIff | test_http_server/epoll_server/server.c:364 | exactly when nothing is cut off, and that 3n + 1 < tosize suffices |
| PercentCodec.EncodeSafe | test_http_server/epoll_server/server.c:362-375 | encoded text holds only unreserved bytes, '/' and '%' |
| PercentCodec.EncodeStr | test_http_server/epoll_server/server.c:362-375 | the loop writes the encoding of that prefix and a NUL |
| PercentCodec.DecodeInPlace | test_http_server/epoll_server/server.c:388-398 | decoding in place leaves the decoding of the original text, a NUL, and the rest of the buffer as it was |
| LineReader.PieceOfNormalized | test_http_server/epoll_server/server.c:158-185 | one call yields the normalised stream up to its first LF, the buffer size or the end; it yields nothing only at exhaustion |
| LineReader.NormalizeLine | test_http_server/epoll_server/server.c:158-185 | text without CR is kept, and a CRLF, a lone CR and an LF after it each become one LF |
| LineReader.NormalizedHasNoCr | test_http_server/epoll_server/server.c:168-177 | no CR survives |
| LineReader.GetLine | test_http_server/epoll_server/server.c:158-185 | the loop with recv and MSG_PEEK stores that piece and a NUL and leaves the rest in the socket |
| LineReader.ReadAll | test_http_server/epoll_server/server.c:158-185 | successive calls until 0, with any buffer size of at least 2, add up to the normalised stream, which read again stays the same, and is what was sent if that had no CR |
| Reactor.HistoryGood | test_epoll_reactor/epoll_reactor_server.c:221-260 | in every run of main, table and tree agree, no two slots on the tree share a descriptor, roles match masks, and connections without a partial send have echoed byte for byte what they received except what is pending |
| Reactor.BatchGood | test_epoll_reactor/epoll_reactor_server.c:249-259 | a whole batch keeps the table good and each event fires at most one callback |
| Reactor.OneCallback | test_epoll_reactor/epoll_reactor_server.c:253-258 | of the two tests of the dispatch loop at most one calls back, the one the registration asked for |
| Reactor.StillReported | test_epoll_reactor/epoll_reactor_server.c:249-259 | handling one event leaves the registrations of the events still to come |
| Reactor.GoodRecv | test_epoll_reactor/epoll_reactor_server.c:94-118 | recvdata keeps agreement, roles and the echo account |
| Reactor.GoodSend | test_epoll_reactor/epoll_reactor_server.c:120-137 | senddata keeps them, and a partial send is exactly what breaks the equality of received and echoed bytes |
| Reactor.GoodAccept | test_epoll_reactor/epoll_reactor_server.c:140-179 | acceptconn keeps them, with or without a free slot |
| ReactorClients.ClientFollowed | test_epoll_reactor/epoll_reactor_server.c:94-137 | over runs: a client whose recv delivers bytes is on the tree for writing after the pass, with its descriptor and exactly those bytes to send; one whose send takes something is on the tree for reading, and has then echoed what it received if everything was taken then and before |
| ReactorClients.LeavesOnly | test_epoll_reactor/epoll_reactor_server.c:221-260 | over runs: a connection leaves the tree only when its recv or send fails (or sends nothing), or when it is idle for the limit; else it goes on with its descriptor and account |
| ReactorClients.LeavesIff | test_epoll_reactor/epoll_reactor_server.c:94-137 | the event of a client takes it off the tree if and only if its recv or send ends the connection |
| ReactorClients.RecvKeepsClient | test_epoll_reactor/epoll_reactor_server.c:94-108 | received data keeps the client, for writing, to be sent back byte for byte |
| ReactorClients.SendKeepsClient | test_epoll_reactor/epoll_reactor_server.c:120-132 | a send that takes something keeps the client, for reading |
| ReactorClients.AcceptTakesClient | test_epoll_reactor/epoll_reactor_server.c:140-179 | with a free slot a new connection is a client with an empty account that waits to be read |
| ReactorDescriptors.NoneLeaked | test_epoll_reactor/epoll_reactor_server.c:94-240 | over runs: the descriptors open and not on the tree after a pass are those before it and the connections its batch accepted with every slot taken or fcntl failing |
| ReactorDescriptors.OpenIsOnTree | test_epoll_reactor/epoll_reactor_server.c:140-179 | while no accept is given up, the open descriptors are at any time those on the tree |
| Reactor.ActivityRefreshes | test_epoll_reactor/epoll_reactor_server.c:43-55 | a callback that keeps a client on the tree protects it from the sweep for the idle limit |
| Reactor.SweepEffect | test_epoll_reactor/epoll_reactor_server.c:224-240 | a sweep closes exactly the idle clients it comes to and leaves every other client slot alone |
| Reactor.SweepCovers | test_epoll_reactor/epoll_reactor_server.c:224-240 | of any 1024 consecutive turns of the sweep exactly one is about a given client slot; it closes the slot if idle, every other turn leaves the slot as it was, and none is about the listener |
| Reactor.SweepTurn | test_epoll_reactor/epoll_reactor_server.c:224-227 | turn k of the wrapping loop is about slot (start + k) mod 1024 and leaves checkpos one past it |
| Reactor.IdleClientRemoved | test_epoll_reactor/epoll_reactor_server.c:221-240 | a client that stays silent and idle for the limit is taken off by one of the next passes, whatever the others do |
| Reactor.RemovedWithinEleven | test_epoll_reactor/epoll_reactor_server.c:221-240 | from any position of the sweep, such a client is taken off by one of the next eleven passes |
| ReactorServer.Server.EventAdd | test_epoll_reactor/epoll_reactor_server.c:58-76 | registering a slot in place |
| ReactorServer.Server.EventDel | test_epoll_reactor/epoll_reactor_server.c:79-92 | taking a slot off the tree in place |
| ReactorServer.Server.RecvData | test_epoll_reactor/epoll_reactor_server.c:94-118 | the callback on the global array and tree is the function of RecvKeepsClient, LeavesIff and NoneLeaked |
| ReactorServer.Server.SendBack | test_epoll_reactor/epoll_reactor_server.c:120-137 | the callback on the global array and tree is the function of SendKeepsClient, LeavesIff and NoneLeaked |
| ReactorServer.Server.AcceptConn | test_epoll_reactor/epoll_reactor_server.c:140-179 | the callback uses the first free slot found by its loop |
| ReactorServer.Server.HandleEvents | test_epoll_reactor/epoll_reactor_server.c:249-259 | the dispatch loop ends in the table of the batch and keeps it good |
| ReactorServer.Server.CheckTimeouts | test_epoll_reactor/epoll_reactor_server.c:224-240 | the sweep loop with its wrapping checkpos is the sweep of the theorems |
| SelectServers.IndexedServer.AddClient | test_select/server_1.c:62-76 | a new client enters the index, which stays equal to the descriptor set; it is refused only when the table is full |
| SelectServers.IndexedServer.ScanIndex | test_select/server_1.c:86-110 | the scan that stops when the ready count hits zero handles every ready client exactly once and drops exactly the closed ones |
| SelectServers.IndexedServer.Round | test_select/server_1.c:48-112 | a whole round keeps the index equal to the descriptor set and handles exactly the ready clients; it gives up only when the table is full, which it never is while the clients' numbers lie between the listener's and FD_SETSIZE |
| SelectServers.RoundWatches | test_select/server_1.c:48-112 | after a round a descriptor is watched exactly when it was or is the new client, and was not handled with its end closed |
| SelectServers.RangeServer.ScanRange | test_select/server.c:66-85 | the plain scan handles each ready client above the listener once |
| SelectServers.RangeServer.Round | test_select/server.c:46-86 | a whole round of the plain server handles exactly the ready clients above the listener, each once |
| SelectServers.ScansAgreeIff | test_select/server_1.c:86-110 | for any select result, both scans handle the same clients exactly when no ready descriptor is below the listener's, which ServersAgree proves of every state the servers reach |
| SelectAgreement.ServersAgree | test_select/server_1.c:48-113 | with socket and accept returning the least number not in use: for the same results of select, accept and read, both servers go through the same runs of any number of rounds, watch the same descriptors at the end, and handle the same clients in every state passed |
| SelectAgreement.IndexedLoop | test_select/server_1.c:48-113 | the event loop on the server object carries out that run: it never gives up while accept returns numbers a descriptor set can hold, and handles each ready client of each round once |
| SelectAgreement.RangeLoop | test_select/server.c:45-87 | the event loop of the plain server, on the same reports, ends with the same descriptors watched and handles the same clients in every round |
| SelectServers.HandlingDone | test_select/server_1.c:106-108 | when the count reaches zero nothing ready is left unhandled |
| BufferedReader.Reader.MyRead | test_wrap/wrap.c:134-153 | however read splits, repeats after EINTR or ends, the next byte of the logical stream is delivered, or its end or error reported |
| BufferedReader.Reader.Readline | test_wrap/wrap.c:155-173 | the next bytes up to and including the first LF, or maxlen - 1 of them (none when maxlen is 0), or the end, are stored with a NUL, exactly the rest is left, and the return value tells which |
| BufferedReader.SpanIsLine | test_wrap/wrap.c:160-170 | a returned line has LF only at its end and is short only at the end of the stream |

## Left out

- HttpChunking.ChunkingIndependence: the agreement with a single call stops where an incomplete body is entered; `SameEntry`, `SplitBody` and `SplitBodyAgreesIff` say what happens then, and the theorems of `HttpRuns` hold through the body.
- HttpConn.Conn.ParseContent: a terminator that falls outside the 2048-byte buffer (`TerminatorInBuffer` says when) is not written in the model, while the source writes it; the sum of content length and position is taken without the overflow of `int`, which is undefined in C.
- HttpChunking.CallKeeps: says of the captured strings only what holds when the content length is not negative; `HttpRuns.CapturedStable` and `TerminatorReach` have the exact condition.
- HttpConn.Conn.Read: the kernel contract given for `recv` lets no byte be delivered when no room is left, and leaves open what it returns then.
- HttpConn.Conn.Process: the mapping of the file, `stat` and `open` are an oracle from paths to file status.
- Delivery by `http_conn::write` (the iovec is not advanced after a partial writev); only where it re-arms or closes is modelled, in `WebServer`, where a reply is sent when `write` takes it for sent.
- WebServerSafety.OwnershipIsExclusive: says nothing of a connection accepted while its number was in use, from that accept to the next one on that number; `SharedStepIff` says that this is the step at which exclusiveness ends.
- WebServerSafety.SemaphoreAccounts: the equality for m_user_count is promised until some connection is accepted on a number in use; `CountedOutTwice` shows that it can fail after that.
- The steps of `WebServer` take one shared access each in a worker's close_conn, but the close_conn of main, and `m_user_count --` and `++`, which the source runs without a lock in several threads, are single steps.
- The stop flag and destructor of the semaphore pool: the server never leaves its event loop except on an epoll error.
- `threadpool_destroy` and `threadpool_free` beyond "shutdown becomes 1" and the broadcasts: joining and freeing are not modelled.
- ThreadPoolSafety.NeverAllAsleep: the awake-worker part is about a pool before shutdown and excludes runs with a shrink request; `AttendedStepIff` says which step breaks it then and `WakeupLost` shows that it happens.
- ThreadPoolSafety.AttendedStepIff: before shutdown; after it workers leave with tasks still queued, as in the source.
- The critical sections of the two thread pools are steps of a transition system; only the task ring is also a class, so the layout of `threadpool_t` and of the request list is not captured. `threadpool_create` is modelled from the state in which all its threads have been started, and thread creation succeeds.
- Reactor.HistoryGood: epoll_ctl succeeds and descriptors returned by accept are not open already; the string terminator that recvdata writes after a full buffer is not modelled.
- PercentCodec.EncodeStr: the input is the text before the NUL, as a sequence.
- LineReader.GetLine: the socket is a fixed byte stream that ends; a non-blocking socket with nothing to read looks the same to the source.
- BufferedReader.Reader.Readline: an empty buffer, into which the source writes its NUL when `maxlen` is 0, is excluded.
- SelectAgreement.IndexedLoop: numbers of FD_SETSIZE and above, which a descriptor set cannot hold and the source does not refuse, are excluded; an error of select or accept ends the source's program.
- `Readn` and `Writen`: simple loops over the same oracle.
- `do_read` of the epoll HTTP server, whose skip loop waits for a result `get_line` never returns.
- The poll, fork, thread, UDP, domain-socket and libevent programs and all clients: plumbing over system calls or external libraries; the repeated copies of `wrap.c`, of the codec and of the reactor.
- Logging, directory listings and `get_file_type`: presentation.
