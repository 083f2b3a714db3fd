# A verified model of the rinha server

Two server processes share one MariaDB table through the HandlerSocket protocol, behind a router that
leases one backend connection to each client. This project models four parts of that system and proves
what they guarantee. `dafny verify dfyconfig.toml` checks everything.

**The transaction protocol.** `TransactionProtocol` is a system of steps over any number of processes,
threads and customers. Taking the process's own mutex, reading data and version, deciding about the
limit, the write keyed on id and version, unlocking and answering are separate steps, and any thread
may move at any time. Any read may fail, and any write may be answered with an error code, may never go
out, or may lose its reply; in the last case the database carries the request out at any later time, or
never. A commit log in the specification records where each call takes effect.
`ProtocolInvariant`, `ProtocolPreservation`, `ProtocolChanges` and `ProtocolTheorems` prove
linearizability up to exactly those faults, credit safety and the retry bound for every interleaving;
`ProtocolStuck` what a thread does, and what it keeps the others from doing, once one of its two clients
has failed. `ProtocolFigures` says the same in the figures of the accounts: the five ids, their limits,
and the sum of the commits against which a debit is decided.
`Database` has the same request as the imperative loop the server runs, with what each attempt meets as
a parameter. `Ledger` is the customer record with its ring of ten transactions.

**The HandlerSocket client.** `StringBuffer` is the growable buffer over an array, with its contents as
a ghost byte queue; `Client` is the pipelining client as a class over two such buffers. `Escape`,
`Fields`, `Requests` and `Responses` say what the bytes on the wire mean; `RequestWriter` and
`LineParser` are the loops that write and parse them in memory, the latter unescaping in place.
`Pipeline` has whole rounds of receive, iterate and remove, and `HandlerSocket` the versioned read and
the conditional write built on them. `Server` is the other end: it cuts the lines it is sent, decodes
their parts and serves them from a table of rows, written down in bytes once more, so that what a
request does to a row is proved of the bytes sent and not of the client's own definitions.

**The router.** `Router` makes every assignment to a map, every counter increment and every slot access
of every worker its own step, and so every relayed write, for clients and for backend connections; a
failed CHECK and a write to a closed peer end the process.
`RouterInvariant`, `RouterPreservation` and `RouterTheorems` prove the maps inverse, the fifty
connections of each backend conserved, and which steps end the process, under the explicit hypothesis
`Timely`: a slot is read only after it was stored, and nobody sleeps between reserving an index and
using it while the ring goes round. `RouterDrained` shows with concrete single-worker executions that
without it the router aborts or lets two clients share a connection, so the remark at
`rinha/thread_pool_router.cc:33-34`, that the maps are probably thread safe, holds only while the free
lists are not drained. `RouterReplies` shows that, with it, one client that leaves before its reply
arrives ends the process. `RouterEvents` proves that a descriptor is waited for exactly while no worker
has it in hand. `RouterDeliveries` follows a reply from the request through the lookup of its destination
to the write, tells clients apart by the step that accepted them, and proves exactly when the reply
reaches the client that asked; `RouterMisdeliveries` has two executions in which another
client gets it. `RouterTables` is the imperative code over the arrays, one shared access at a
time, each access proved to be one step.

**The texts.** `Statement` renders a customer by concatenation with both loops over the ring;
`StatementReading` reads it back with `Json`, a parser for objects and arrays of RFC 8259, and
`ServedStatements` says what a client of the running protocol reads. `ResponseTemplate` is the reused
140-character response, `HttpRequest` the fixed-offset request parser, `Numerals` the numbers in both;
`HttpReader` reads a response as a client does (RFC 9112), and `RequestProcessor` puts one request
together, from its text to the status and body that reader gets.

Things the proofs brought out, all kept as the code has them:

- A conditional write counts as done when its reply carries an error code and also when the request went
  out and no reply came at all (`rinha/handler_socket.cc:226-232`). A call can so be answered SUCCESS
  without a commit, or before it: after a lost reply the row may change once the client has already read
  the old balance. `Linearizability` says exactly which calls are left without an effect. An error reply
  is also left in the buffer, so the next request on that client closes the connection and every later
  one fails.
- A statement whose read fails is answered as if the customer did not exist. After such a failure the
  thread's next transaction reads in vain for ever, with the process's mutex for its customer held, so
  every other transaction of that process on that customer waits for ever (`rinha/maria_database.cc:185-197`).
- The router aborts when a backend connection has data while no client has leased it
  (`rinha/thread_pool_router.cc:462-466`), which takes no more than a client that sends a request and
  leaves; when data and the end of the stream, or 4096 bytes of data, arrive in one read
  (`rinha/thread_pool_router.cc:287-289`); and by the signal of a write to a peer that has closed, which
  nothing in the router ignores (`rinha/thread_pool_router.cc:274`).
- A reply can reach a client that did not ask, although the maps are right at every step: the descriptor
  looked up can be closed and given to the next client before the write, and a connection given back
  with a request outstanding brings the reply to its next client.
- A response code of 2^31 or more reads as a negative error, which stops a pipeline without closing it.
- `transaction_count` climbs to 11, not 10, with the eleventh commit; a transaction of
  value 0 is rendered with type "d"; a request body whose value has no digits at all is a transaction of 0.
- A read of a row that is not there succeeds, with the caller's record and version as they were
  (`rinha/handler_socket.cc:146-177`).
- The response to a transaction announces 62 bytes and is followed by seven zero bytes on the connection
  (`rinha/request_processor.cc:107`).
- The request parser reads outside its text, or overflows, exactly where `UndefinedExactly` says: for a
  text too short for its id, for digits of 2^31 or more before the comma, and for a body that ends before
  the place of its type.
- The vector form of `split` always returns 0 (`libhsclient/string_util.cpp:129-146`).

## Model

| member | source | states |
|---|---|---|
| ProtocolPreservation.StepKeepsInvariant | rinha/maria_database.cc:177-223 | every step of every thread, failed reads and writes and late execution of lost requests included, keeps: each row is its opening state folded over the commits in the log and its version counts them, the log is a sequential execution, mutex holders are in the loop, answered calls have their entry or a fault on record, retries are covered by commits the mutex does not cover |
| ProtocolTheorems.Linearizability | rinha/maria_database.cc:161-223 | the log is a run of a single-threaded ledger, and the answer to a call that met no fault is exactly one log entry made between the call and the answer; a call is left without entry if and only if its read failed, its write got an error code, or its write's reply was lost and the request never took effect; the last two are answered SUCCESS, the first not found; a request that lands late makes its one entry where it lands |
| ProtocolTheorems.FaultsExactly | rinha/handler_socket.cc:216-232 | a call's fault on record is the failed read, error code or lost reply one of its steps met, and conversely |
| ProtocolTheorems.LateEntries | rinha/handler_socket.cc:226-232 | a call that met a fault has an entry exactly when its request landed late on the version it carries |
| ProtocolTheorems.SuccessWithoutCommit | rinha/handler_socket.cc:226-232 | for an error code and for a lost reply, an execution in which a deposit is answered SUCCESS and no row changes |
| ProtocolTheorems.SuccessBeforeCommit | rinha/handler_socket.cc:226-232 | an execution in which a deposit is answered SUCCESS, a later statement shows the account without it, and then the deposit is committed |
| ProtocolTheorems.RealTimeOrder | rinha/maria_database.cc:184-223 | a call answered before another one starts also takes effect before it, unless its reply was lost |
| ProtocolTheorems.CreditSafety | rinha/maria_database.cc:193-216 | in every reachable state balance >= -limit, the limit is the opening one, balance and version are the sum and the number of commits, counters and ring agree with the history |
| ProtocolTheorems.RetriesCountRefusals | rinha/maria_database.cc:185-216 | the retry counters count exactly the conditional writes that found a newer version |
| ProtocolTheorems.LandingsCountLateCommits | rinha/handler_socket.cc:226-232 | the landing counters count exactly the requests that took effect after their reply was lost |
| ProtocolTheorems.RetryBound | rinha/maria_database.cc:185-221 | the refused writes of a process on a customer never exceed the commits of other processes on it plus its own late ones |
| ProtocolTheorems.TwoProcessRetryBound | rinha/maria_database.cc:185-221 | with two processes one side's refused writes are at most the other's commits plus its own late ones; a lone process that loses no reply is never refused |
| ProtocolFigures.EntryInFigures | rinha/maria_database.cc:177-217 | every log entry, in figures: an id outside 1 to 5 is not found, a statement has the sum of the commits as balance, a transaction is refused if and only if that sum plus its value is below minus the customer's limit, a debit exactly to the limit is accepted |
| ProtocolFigures.AnswerInFigures | rinha/maria_database.cc:161-223 | the answer to a call that met no fault is the one those figures give at one point between call and answer |
| ProtocolFigures.NotFoundExactly | rinha/maria_database.cc:161-182 | a call is answered as not found if and only if its id is outside 1 to 5 or it is a statement whose read failed |
| ProtocolFigures.OpenedInFigures | rinha/maria_database.cc:23-50 | the five limits by value, an empty balance and version 1 |
| ProtocolFigures.CreditInFigures | rinha/maria_database.cc:193-216 | in every reachable state the balance is the sum of the commits and no less than minus the limit, which is the opening one by value, and the version is one more than their number |
| ProtocolFigures.LockIsFree | rinha/maria_database.cc:185-221 | a thread gets the mutex if and only if no other thread of its process is at work on the same customer |
| ProtocolStuck.StuckWriterNeverSucceeds | rinha/maria_database.cc:187-219 | after a failed write, if its clients stay stuck, none of a thread's later transactions is answered with success |
| ProtocolStuck.StuckReaderNeverAnswers | rinha/maria_database.cc:187-197 | after a failed read, a transaction of the thread on a known customer waits for the mutex or reads at every later step, and is never answered |
| ProtocolStuck.HolderBlocks | rinha/maria_database.cc:185-221 | while a thread has not unlocked, it stays with its call and nobody of its process waiting for the same customer moves |
| ProtocolStuck.StuckReaderBlocks | rinha/maria_database.cc:185-197 | once such a thread holds the mutex, no other thread of its process waiting for that customer is ever answered |
| Database.ExecuteTransaction | rinha/maria_database.cc:177-223 | the retry loop in place: not found exactly for an id outside 1 to 5; refused exactly when balance plus value of the row of the last attempt is below minus the limit, else the record and, reply by reply, the stored row; every earlier attempt failed to read or had a write within the limit that never went out or found a newer version |
| Database.GetCustomer | rinha/maria_database.cc:161-175 | the record becomes the row's, or stays as it was for an id outside 1 to 5 or a failed read |
| Database.Table.WriteCustomer | rinha/handler_socket.cc:201-211 | the row is replaced, and its version raised, exactly when the version still matches |
| Ledger.RingRefinesHistory | rinha/maria_database.cc:204-211 | after n commits the count is min(n, 11), the next index n mod 10, the balance the sum, and transaction i is in slot i mod 10 for the last ten |
| Ledger.CustomerRecord.Record | rinha/maria_database.cc:204-211 | the in-place update of the record is one application of the transaction |
| StringBuffer.Buffer.Reserve | libhsclient/string_buffer.hpp:37-58 | the doubling loop ends with room for the request or aborts, exactly when the sum cut to 64 bits passes 2^63; content, offsets and the power-of-two capacity survive |
| StringBuffer.Buffer.MakeSpace | libhsclient/string_buffer.hpp:66-69 | the bytes asked for are there past the end, contents unchanged |
| StringBuffer.Buffer.SpaceWrote | libhsclient/string_buffer.hpp:70-73 | the queue grows by what was written, at most to the end of the block |
| StringBuffer.Buffer.EraseFront | libhsclient/string_buffer.hpp:59-65 | the queue loses its front; losing all of it resets the offsets |
| StringBuffer.Buffer.Append | libhsclient/string_buffer.hpp:77-82 | appends to the queue, whether or not the block grows |
| StringBuffer.Buffer.Append2 | libhsclient/string_buffer.hpp:83-91 | appends two texts, reserving from the end offset |
| StringBuffer.Buffer.Resize | libhsclient/string_buffer.hpp:30-36 | cuts the queue or extends it with zero bytes |
| StringBuffer.Buffer.AppendEscaped | libhsclient/escape.cpp:41-47 | appends exactly the escaped text |
| Escape.UnescapeEscaped | libhsclient/escape.cpp:26-69 | unescaping undoes escaping for every byte string |
| Escape.EscapedIffCanonical | libhsclient/escape.cpp:26-69 | the texts on which unescaping and escaping are inverse are exactly those escaping can produce |
| Escape.EscapeInjective | libhsclient/escape.cpp:26-39 | different texts have different escapes |
| Escape.EscapedClean | libhsclient/escape.cpp:20-39 | at most twice as long, and no byte below 0x10 but 0x01 |
| Escape.EscapedBytewise | libhsclient/escape.cpp:20-39 | byte by byte, in figures: from 0x10 on as it is, else 0x01 and the byte raised by 0x40 |
| Escape.EscapeString | libhsclient/escape.cpp:26-39 | the loop lays the escaped text over memory at the write cursor and touches nothing else |
| Escape.UnescapeString | libhsclient/escape.cpp:49-69 | in place or towards an earlier cursor, the loop writes exactly the unescaped text and says whether all of it was well formed; the write cursor never passes the read cursor |
| Bytes.MemChr | libhsclient/string_util.cpp:129-146 | the first delimiter of a stretch, or none |
| Bytes.SplitVector | libhsclient/string_util.cpp:129-146 | the parts are those between the delimiters; the returned number is always 0 |
| Bytes.SplitJoin | libhsclient/string_util.cpp:129-146 | splitting undoes joining for delimiter-free parts |
| Bytes.JoinSplit | libhsclient/string_util.cpp:129-146 | joining the parts of any text gives the text back |
| Bytes.AtoiUint32 | libhsclient/string_util.cpp:26-38 | the value, cut to 32 bits, of the leading run of digits |
| Bytes.DecimalValue | libhsclient/string_util.cpp:75-81 | the reader of numbers undoes the printer below 2^32 |
| Fields.FieldRoundTrip | libhsclient/hstcpcli.cpp:193-204 | null, empty and every byte string are told apart after the trip over the wire, and no token holds a tab or newline |
| Requests.RequestRoundTrip | libhsclient/hstcpcli.cpp:208-269 | splitting a request line on tabs and unescaping recovers every part of the request, whichever options are left out |
| Requests.RequestLinesDiffer | libhsclient/hstcpcli.cpp:208-269 | no two requests share a line |
| Requests.ExecIsOneLine | libhsclient/hstcpcli.cpp:208-269 | the line has exactly one newline, at its end, if and only if no raw token holds one; keys and values may hold any bytes |
| Requests.TokensOnTheLine | libhsclient/hstcpcli.cpp:216-268 | the number of tokens from what the request asks for: 3 and the keys when everything is at its default, one more for a limit alone, else two more and those of in-list, filters and modification |
| Requests.DefaultLine | libhsclient/hstcpcli.cpp:216-228 | the whole line of a plain look-up: handle, operator, number of keys, keys |
| Requests.AuthLineRead | libhsclient/hstcpcli.cpp:178-188 | an authentication line read back: letter, type (1 when none is given), secret |
| RequestWriter.AppendExec | libhsclient/hstcpcli.cpp:216-268 | the appends, branch by branch, add exactly the request line to the buffer, whose tokens the rows above count and read |
| RequestWriter.AppendOpenIndex | libhsclient/hstcpcli.cpp:148-169 | the appends add exactly the open-index line, which `HandlerSocket.HandlesOpened` shows to a server |
| RequestWriter.AppendAuth | libhsclient/hstcpcli.cpp:178-188 | the appends add exactly the authentication line, which `AuthLineRead` reads back |
| LineParser.ReadUi32 | libhsclient/escape.cpp:80-93 | the digits of the token at the cursor, cut to 32 bits, and the cursor after it |
| LineParser.ParseHeader | libhsclient/hstcpcli.cpp:334-352 | code, field count, position of the rows and error message as the header of the line says |
| LineParser.ReadFieldInPlace | libhsclient/hstcpcli.cpp:376-388 | the reference denotes the field's value, and only the field's own stretch of memory changes |
| LineParser.ReadRowInPlace | libhsclient/hstcpcli.cpp:376-390 | the references denote all fields of the row after all of them were unescaped over one another's line; memory before and behind is untouched |
| Responses.TableRoundTrip | libhsclient/hstcpcli.cpp:362-392 | every table of nullable byte strings is read back row by row |
| Responses.FailureRoundTrip | libhsclient/hstcpcli.cpp:337-351 | an error line is read back with its message, an empty one as `unknown_error`, byte by byte |
| Responses.LinesRead | libhsclient/hstcpcli.cpp:313-326 | pipelined lines are told apart, read one by one, and leave what follows |
| Client.LinesCounted | libhsclient/hstcpcli.cpp:168-169 | with one-line requests the newlines in the write buffer count the buffered requests and splitting there gives them back |
| Client.Client.PhaseDecides | libhsclient/hstcpcli.cpp:78-105 | in every state the counters are those of one of four phases; a response is held exactly while one is received and not removed, and outstanding requests mean an open connection |
| Client.Client.Reconnect | libhsclient/hstcpcli.cpp:91-99 | idle again, with the error cleared or set by the new connection; every other operation's contract says that a negative error stays negative |
| Client.Client.StablePoint | libhsclient/hstcpcli.cpp:101-105 | true exactly when the connection is open and idle |
| Client.Client.RequestBufExecGeneric | libhsclient/hstcpcli.cpp:208-269 | one more line in the write buffer, nothing else changed; with replies outstanding, the connection is given up |
| Client.Client.RequestBufOpenIndex | libhsclient/hstcpcli.cpp:140-170 | the same for the open-index request |
| Client.Client.RequestBufAuth | libhsclient/hstcpcli.cpp:172-189 | the same for authentication |
| Client.Client.RequestSend | libhsclient/hstcpcli.cpp:271-299 | succeeds exactly when open, with requests buffered, and all bytes taken; then all k lines have gone out, the phase is k outstanding and the write buffer empty; otherwise the connection is given up; an old negative error changes nothing |
| Client.Client.ReadMore | libhsclient/hstcpcli.cpp:111-125 | moves one read's bytes, at most 4096, into the buffer; received plus coming bytes stay the same stream; a failed read and the end of the stream are told apart by result and error text |
| Client.Client.ReadLine | libhsclient/hstcpcli.cpp:313-326 | finds the stream's first line whatever the split into reads, or fails exactly when there is none |
| Client.Client.ResponseRecv | libhsclient/hstcpcli.cpp:301-360 | in each phase, the next phase and error; with a reply outstanding the outcome is the first line of the stream, or the end of the connection when there is none |
| Client.Client.GetNextRow | libhsclient/hstcpcli.cpp:362-392 | a row is returned exactly when fields and unread bytes are left; it has the row's values, the cursor moves past it, and bytes before the old and behind the new cursor are as they were |
| Client.Client.ResponseBufRemove | libhsclient/hstcpcli.cpp:394-406 | exactly the response's bytes leave the buffer and the phase steps on |
| Pipeline.ReceiveRound | libhsclient/hstcpcli.cpp:301-406 | one round returns what the first line of the stream says and leaves exactly the rest of the stream |
| Pipeline.ReceivePipelined | libhsclient/hstcpcli.cpp:301-406 | k rounds return the k responses of the stream, for every split into reads, if and only if no earlier one has a code of 2^31 or more; the unconsumed suffix is left |
| Pipeline.TablesRead | libhsclient/hstcpcli.cpp:301-392 | the stream of any list of encoded tables is read as those tables |
| Pipeline.ReceiveTables | libhsclient/hstcpcli.cpp:301-406 | however the encoding of any list of tables is cut into reads, the caller gets exactly those tables |
| Server.FieldsInBytes | libhsclient/hstcpcli.cpp:193-204 | a token is the one byte 0x00 exactly for a null, and else its bytes in the escaped form the server decodes |
| Server.UnescapedIsUncoded | libhsclient/escape.cpp:49-69 | the client's decoder accepts exactly the texts in which every 0x01 is followed by a byte from 0x40 on, and then reads what the server reads |
| Server.NumeralsRead | libhsclient/escape.cpp:80-93 | the number read from a token is that of its digits, whatever is between them, modulo 2^32 |
| Server.LineSeen | libhsclient/hstcpcli.cpp:216-268 | cutting the line sent at its tabs gives the server exactly the tokens the client wrote |
| HandlerSocket.StoiDecimal | rinha/handler_socket.cc:164-168 | reading a printed number gives it back |
| HandlerSocket.StoiSigned | rinha/handler_socket.cc:164-168 | white space, a sign, digits and anything behind them: the signed value, or the exception exactly for no digits or a value outside 32 bits |
| HandlerSocket.ModifiedExactly | rinha/handler_socket.cc:236-255 | a write is taken for done exactly when some field of some row of its reply is a positive number |
| HandlerSocket.FieldsFetch | rinha/handler_socket.cc:146-172 | of a row's three fields the second is the data and the third the version; a null leaves the value as it was |
| HandlerSocket.WriteCustomerHs | rinha/handler_socket.cc:179-260 | a table reply says whether a row was modified and leaves the client ready; an error reply counts as modified and leaves it stuck; so does no reply at all, with the connection closed; a request not sent whole answers false; a stuck client sends nothing and answers false |
| HandlerSocket.ReadCustomerHs | rinha/handler_socket.cc:104-177 | data and version of the reply's rows, later rows over earlier ones; after an error reply, no reply or a request not sent whole nothing is read and the client is stuck |
| HandlerSocket.WriteIsCompareAndSwap | rinha/handler_socket.cc:179-211 | what the bytes sent make a server do, for any record bytes: the row with this id and version keeps its id and gets the data and the next version, no other row changes, and the reply counts 1; else nothing changes and it counts 0 |
| HandlerSocket.ReadLineInBytes | rinha/handler_socket.cc:104-125 | the whole line of a versioned read, byte by byte, with the id as one digit |
| HandlerSocket.ReadFindsRow | rinha/handler_socket.cc:104-125 | what those bytes make a server do: it changes nothing and answers with the row of this id, whatever its version, or with none |
| HandlerSocket.HandlesOpened | rinha/handler_socket.cc:18-90 | the start-up requests open one handle that reads by id and one that reads by id and version |
| HandlerSocket.RepliesInBytes | rinha/handler_socket.cc:127-255 | the server's replies, byte by byte, are the tables the client reads |
| HandlerSocket.CompareAndSwap | rinha/handler_socket.cc:179-260 | the whole path of a write, over the server's own reply in any split into reads: the row moves on exactly when it is there with the version, and the answer says so |
| HandlerSocket.RowFetched | rinha/handler_socket.cc:146-172 | the caller gets the row's bytes and version back |
| HandlerSocket.FetchRow | rinha/handler_socket.cc:104-177 | the whole path of a read, over the server's own reply: data and version of the row with this id, or the caller's values when there is none |
| RouterPreservation.StepKeepsInvariant | rinha/thread_pool_router.cc:53-90 | every timely step of every worker, for clients and for backend connections, that does not end the process keeps the router's invariant |
| RouterTheorems.AbortsExactly | rinha/thread_pool_router.cc:237-469 | in timely executions a step ends the process if and only if it is an error event, a failed read, a write to a closed peer, a failed accept, fcntl or epoll_ctl, the CHECK after data and end in one read, the end of a backend connection, or data from a backend connection that is no client's |
| RouterTheorems.EntryIsClient | rinha/thread_pool_router.cc:442-444 | a connection's entry is set exactly while the connection is fully leased, and then its client's entry names it |
| RouterTheorems.RepliesAreRouted | rinha/thread_pool_router.cc:462-466 | the lookup for data from a backend connection yields the one client whose lease is complete, and with no such client ends the process |
| RouterDeliveries.DeliveryFollowsTheLease | rinha/thread_pool_router.cc:237-275 | what is written was looked up for the client then leased the connection; at the write the lease is still that client's if and only if it was not released since, and the descriptor is if and only if it was not closed since |
| RouterDeliveries.ReplyReachesAsker | rinha/thread_pool_router.cc:237-275 | the client written to is the one that made the request answered, whichever that is, if and only if that client's lease lasted from its request to the lookup and its descriptor from the lookup to the write |
| RouterDeliveries.RepliesInOrder | rinha/thread_pool_router.cc:237-275 | the same for the head of the connection's queue of requests, which a backend that answers in order answers |
| RouterMisdeliveries.ReplyToTheNextHolder | rinha/thread_pool_router.cc:237-275 | a timely execution of two workers in which the descriptor looked up is closed and accepted again before the write, and the second client gets the first one's reply |
| RouterMisdeliveries.ReplyToTheNextLease | rinha/thread_pool_router.cc:53-76 | a timely execution of one worker in which the answer to the only request ever written to a connection goes to the client of a later lease |
| RouterReplies.ReplyAborts | rinha/thread_pool_router.cc:462-466 | a timely execution of one worker and one client, who leaves before the reply, in which the reply ends the process |
| RouterTheorems.MapsAreInverse | rinha/thread_pool_router.cc:442-444 | outside a worker's two half-way points the maps are mutually inverse, and no connection serves two clients |
| RouterTheorems.ReleaseClearsItsOwnLease | rinha/thread_pool_router.cc:53-76 | an entry cleared by a release still named that release's client and connection |
| RouterTheorems.LeaseIsStable | rinha/thread_pool_router.cc:53-76 | no step after which the process lives but the waking of its own client touches a lease at rest |
| RouterTheorems.RequestsReachTheLease | rinha/thread_pool_router.cc:237-275 | when a client's data is written, it goes to the connection leased to that client, which no other client's entry names |
| RouterTheorems.Conservation | rinha/thread_pool_router.cc:40-46 | free, in transit and leased are disjoint and add up to the fifty connections of a backend; the window is at most fifty |
| RouterEvents.EventsAreWaitedFor | rinha/thread_pool_router.cc:270-291 | a backend connection is waited for if and only if no worker handles an event of it, a client if and only if its descriptor is open and no worker has it in hand, and no two workers handle the same descriptor |
| RouterEvents.DataAndEndIsFatal | rinha/thread_pool_router.cc:287-290 | in every interleaving, after data and end of stream in one read the worker's next step is the failed CHECK, and the last one |
| RouterTheorems.StoreOverwritesNothing | rinha/thread_pool_router.cc:59-71 | a store never lands on a published slot of the window |
| RouterTheorems.PopIsRightExactlyInTime | rinha/thread_pool_router.cc:407-434 | a slot read yields a free connection of that index if and only if it is read after its store and before the ring has gone round |
| RouterDrained.DrainedPoolAborts | rinha/thread_pool_router.cc:407-420 | an execution of one worker in which one client too many fails the CHECK |
| RouterDrained.DrainedPoolSharesAConnection | rinha/thread_pool_router.cc:407-434 | an execution of one worker in which two clients end up with the same connection |
| RouterTables.Tables.constructor | rinha/thread_pool_router.cc:337-353 | the initialisation loop leaves the router's initial state in the arrays |
| RouterTables.Tables.EraseFromMaps | rinha/thread_pool_router.cc:53-90 | for a client the code's assignments are exactly the steps of a release, in order; for any other descriptor the pair, if there is one, is cleared in both maps and the CHECK fails |
| RouterTables.Tables.Lease | rinha/thread_pool_router.cc:405-455 | the code's assignments are exactly the steps of a lease, in order, or end in the failed CHECK |
| RouterTables.Tables.Dispatch | rinha/thread_pool_router.cc:462-469 | for a client's and for a backend's descriptor the data goes where the client's map says, else where the connection's says, else the CHECK fails |
| Statement.ListToJson | rinha/to_json.cc:40-62 | both branches emit the ring's transactions from the newest down, with commas between them |
| Statement.ShownIsLatest | rinha/to_json.cc:40-62 | what the ring shows is exactly the last ten transactions of the history, or all when there are fewer, newest first |
| Statement.CustomerToJson | rinha/to_json.cc:64-74 | the text with balance, date, limit and list in their places |
| StatementReading.StatementRendered | rinha/to_json.cc:31-74 | the concatenations are a rendering of a JSON tree |
| StatementReading.TransactionIsRead | rinha/to_json.cc:31-38 | a JSON reader gets the absolute value, type "c" exactly from 1 on and else "d", description and time |
| StatementReading.StatementRoundTrip | rinha/to_json.cc:31-74 | a JSON reader recovers balance, limit, date and the last ten transactions with their signs if and only if no text needs an escape |
| ServedStatements.StatementShowsCommits | rinha/maria_database.cc:161-175 | in every interleaving a statement shows the ledger after a prefix of the commit log that ends between request and answer |
| Json.RenderedIsRead | rinha/to_json.cc:18-27 | parsing undoes rendering for every tree of escape-free texts |
| Json.ParsedIsPlain | rinha/to_json.cc:31-38 | no parse yields a text that would need an escape |
| ResponseTemplate.InitialIsTemplate | rinha/request_processor.cc:31-34 | the array as declared is a template, and reads as a response of status 200 with 62 bytes of body and seven behind it |
| ResponseTemplate.WriteNumberToString | rinha/request_processor.cc:40-59 | the number's text ends at the given index and nothing else changes |
| ResponseTemplate.BuildTransactionResponse | rinha/request_processor.cc:60-70 | from any template the whole array becomes, for every int but the smallest, a response a client reads as status 200, type application/json, length 62, and exactly that long a JSON body with this limit and balance; it is a template again |
| ResponseTemplate.BodyIsRead | rinha/request_processor.cc:31-38 | a JSON reader gets exactly the limit and the balance from the 62-character body |
| ResponseTemplate.FramedIsRead | rinha/request_processor.cc:19-34 | the status line and the two header fields in front of a body of the announced length: a client reads status, fields, body and what follows it |
| RequestProcessor.PayloadIsRead | rinha/request_processor.cc:110-114 | a statement is sent with its own length and read back whole |
| RequestProcessor.RefusalsAreRead | rinha/request_processor.cc:23-29 | the two refusals read as complete responses of status 422 and 404 without a body |
| RequestProcessor.HandleRequest | rinha/request_handler.cc:13-44 | statements and transactions with their results: done, invalid exactly for a debit below the limit, not found for an unknown id or a failed statement read |
| RequestProcessor.ProcessRequest | rinha/request_processor.cc:74-131 | from the text of a request to what a client reads: 422 for an invalid text and for a debit below the limit, 404 for an unknown id or a failed statement read, else 200 with the statement of the stored row or with limit and new balance |
| HttpRequest.SubstringToInt | rinha/from_http.cc:18-29 | the first character that is no digit, or the first overflow, decides; else the value |
| HttpRequest.NumberIsValue | rinha/from_http.cc:18-29 | a number comes out exactly for digits only with a value below 2^31, and it is their value |
| HttpRequest.ParseJsonBody | rinha/from_http.cc:31-83 | the statements in order compute the outcome that the next rows characterise, each from the text alone |
| HttpRequest.AcceptedExactly | rinha/from_http.cc:31-83 | a body is accepted with a value and description if and only if it is made of ten characters, digits, a comma, a type at its offset, and a quote-free description of 1 to 10 characters closed by quote and brace at the very end |
| HttpRequest.UndefinedBodyExactly | rinha/from_http.cc:31-52 | a body is undefined if and only if its first comma has no dot before it and either digits of 2^31 or more before anything else, or only digits and the end of the text before the place of the type |
| HttpRequest.RejectedExactly | rinha/from_http.cc:31-83 | a body is rejected if and only if it has no comma, a dot before it, a character that is no digit before an overflow, a wrong type, or a description that is not closed, has a wrong length or is not the end |
| HttpRequest.OverflowExactly | rinha/from_http.cc:18-29 | the digit loop overflows if and only if some run of digits at the start is 2^31 or more |
| HttpRequest.ExecuteExactly | rinha/from_http.cc:101-124 | a text is a transaction request with these values if and only if it is no GET, has the id digit at its offset, and an accepted body behind its first blank line |
| HttpRequest.UndefinedExactly | rinha/from_http.cc:87-125 | a text is undefined if and only if it is too short for its id, or has its id digit and an undefined body behind its first blank line |
| HttpRequest.InvalidExactly | rinha/from_http.cc:87-125 | a text is invalid if and only if it is long enough and its id is no digit, or, for a POST, it has no blank line or a rejected body behind the first one |
| HttpRequest.BalanceExactly | rinha/from_http.cc:88-99 | a text is a statement request if and only if it starts with GET and has the id digit at its offset |
| HttpRequest.TransactionRoundTrip | rinha/from_http.cc:87-125 | parsing the canonical request gives the id, the signed value and the description back |
| HttpRequest.FromHttp | rinha/from_http.cc:87-125 | the statements in order compute the request; the four exact characterisations above divide all texts among its outcomes |

## Left out

- C integer overflow: balances, values and versions are mathematical integers; the request parser's overflow is the outcome `Undefined`, and the response template excludes the smallest `int`, whose negation overflows.
- Start-up: the protocol starts after both processes have initialised; the insert at `rinha/maria_database.cc:20-21` overwrites data without raising the version and would break it.
- ProtocolPreservation.StepKeepsInvariant: each read and write meets its fault independently of earlier ones, which allows more than the code does; that a client stays stuck after a failure is proved at `HandlerSocket.WriteCustomerHs` and `HandlerSocket.ReadCustomerHs` and is the hypothesis `ClientsStick` of `ProtocolStuck`.
- Database.ExecuteTransaction: finitely many attempts meet a disturbance; without such a bound the loop need not end, as `ProtocolStuck.StuckReaderNeverAnswers` shows.
- HandlerSocket.CompareAndSwap: the server is assumed to be the one of `Server`, which serves a line at once, the operator `=` alone, and takes a limit of 0 as one row; MariaDB, SQL and the server plugin are not part of this model.
- HandlerSocket.ReadCustomerHs: the record is the field's bytes; that they are the memory image of a `Customer` is not modelled.
- StringBuffer.Buffer.MakeSpace: requires the end offset plus the request to stay within 2^63; beyond it the source aborts, as `StringBuffer.Buffer.Reserve` says, or its sum wraps; a failing `realloc` aborts in the source and does not occur here.
- StringBuffer.Buffer.Append: the same bound as `MakeSpace`.
- StringBuffer.Buffer.Append2: the same bound, for the sum its own call of `reserve` makes.
- StringBuffer.Buffer.Resize: the same bound, for the new length behind the begin offset.
- StringBuffer.Buffer.AppendEscaped: the same bound, for twice the text's length.
- Client.Client.ResponseRecv: what the network delivers before it ends is fixed in advance as a split of a byte stream; `outgoing` holds requests sent whole, and the bytes of a partial send before the connection is given up are not kept.
- RouterTheorems.Conservation: holds for timely executions; counters are mathematical integers, not 32 bits wide.
- RouterDeliveries.ReplyReachesAsker: one wake-up of a connection carries one reply and one of a client one request; partial writes, whose rest the source drops, and several replies in one read are not modelled.
- Router.Enabled: `accept` returns descriptors below 1000 only; the source indexes its arrays with whatever it returns (`rinha/thread_pool_router.cc:443`). A wake-up with nothing to read, after which the source does not arm the descriptor again, does not occur.
- `DCHECK`: only debug builds have it; the model is the release build, which goes on.
- RequestProcessor.ProcessRequest: sends nothing where the parser, or the writer of the template, is undefined; the loop over `write`, and the truncation of a request at a zero byte before it is parsed, are not modelled.
- Characters are not encoded; texts in the ledger are sequences of characters without embedded zeros.
- The array form of `split`, `get_token`, the signed number reader and `write_ui32`/`write_ui64`: variants of modelled loops.
- Sockets, epoll, accept and close themselves, configuration, logging, clock caching, thread pools, the shared lock and the load drivers.
