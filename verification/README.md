# Verified models of the bundled name-resolution and HTML code

This project states what three parts of the repository's bundled libraries do and proves it: the query engine
and the codecs of c-ares 1.7.5, and the entity encoder, attribute parser and element stack of the HTML parser
of libxml2 2.7.4.

## The query engine

`Engine` is the c-ares channel as a state machine. Its data are the servers with their connections and send
queues, the queries with their retry counters, per-server skip marks and connection stamps, and the four kinds
of list a query is kept in: all queries, the query-id table, the timer wheel and the list of its server. What
the outside world decides (does a socket open, a write or an allocation succeed, the random jitter) is a
stream `env` of the configuration, so a statement about all configurations is one about all outcomes. A log
records every transmission with its wait and every callback. `EngineInv` says what holds between steps;
`EngineSteps`, `EngineOps`, `EngineApi`, `EngineSend` and `EngineTimers` show that every step keeps it,
`EngineTurns` how a query goes round the servers. `EngineRecovery` and `EngineBroken` say what becomes of
queries when a connection fails or a server is marked as broken, `EngineCalls` what each call does in terms of
the bytes of packets and of status numbers; `EngineRun` says what follows after every run, that is any
sequence of `ares_send`, arriving packets, timer ticks, connection errors, completed writes and `ares_cancel`.

`Channels.Channel` is the channel as an object whose methods update it in place, with the loops of the source;
each is proved to reach exactly the state of the engine's step. `LinkedLists` and `SendQueue` are the
intrusive circular lists and the request queue on the heap; their contents are the engine's sequences.
`ListWalk` runs the loops that change a list while they walk along it on such nodes. `Clock` has the `struct
timeval` arithmetic and the doubling schedule, `Questions` the comparison of a reply with its request,
`Framing` the reassembly of messages from a TCP stream, `Search` the search-domain state machine.

## The codecs

`Names` is the compressed-name walk with its loop detection and unchecked second pass, `MkQuery` the encoder
of escaped names, `AReply` the parser of address replies. `DnsWire` puts headers, names, questions and
`ReplyWire` records and whole replies together byte by byte, independently of the readers, and shows that the
readers find in them what was put there; `QueryWire` says the same of the packets that `MkQuery` builds.
`AddressText` prints IPv6 and IPv4 addresses; `AddressParse`, `AddressParser` and `AddressParse4` parse them,
and `AddressRoundTrip` shows that printing and parsing undo each other. `AddressGrammar`, `AddressFields`,
`AddressMeaning` and `AddressOutcome` say which texts the IPv6 parser takes and what it makes of them.
`Numerals` and `Seqs` are shared.

## The HTML parser

`HtmlEntities` is `htmlEncodeEntities` with the two table lookups, `HtmlAttributes` the attribute-value parser
with character and entity references, `Utf8` the character encoding both use, and `HtmlRoundTrip` relates
them. `HtmlOutput` says what the encoder's output can contain, `HtmlValues` what the attribute parser does
with text that no encoder wrote. `HtmlTags` holds the tables of element names, `HtmlStack` the functions that
open and close elements, `HtmlShape` what is true of the stack and the events after every document,
`HtmlImplied` which elements are opened without a tag of their own, and `HtmlParser.Context` the parser
context updated in place.

## Where code and documentation part

- The comment in `ares_expand_name.c` limits labels to 63 bytes; the code takes any length byte below 192
  (`Names.LongLabelResolves`).
- `ares_mkquery` computes the length of the name beforehand by looking at its last byte. For the name "." it
  reports one byte too many, and after an escaped final period one too few; `MkQuery.ReportedLength` says
  exactly when, `MkQuery.LengthExamples` has a name of either kind. What is reported is also what is
  allocated, so that in the second case the last byte is written behind the buffer (`MkQuery.MakeQuery`). The
  same miscount lets such a name take 256 bytes on the wire, one more than allowed (`QueryWire.TakenIff`).
- A successful end of a query leaves the bytes waiting for other servers alone, except that the last query
  closes all sockets when they are not to stay open (`EngineRun.SuccessKeepsPending`).
- `ares_cancel` frees queries without releasing the requests that point into them. When sockets stay open
  those requests remain: `EngineSend.CancelDangles` says exactly when, and `EngineRun.CancelLeavesDangling` is
  a run that ends so.
- A TCP message announced with length zero is never handed on: the next read asks for no bytes and is taken
  for an error (`Framing.StuckOnEmpty`, `Framing.EmptyMessageSticks`).
- `ares_inet_net_pton` promises -1 on failure; a text that goes on after nine groups gets 0.
  `AddressMeaning.NothingWrittenIff` says exactly which texts do, and `AddressRoundTrip.NineGroups` has a family
  of them.
- With a width given, the shift that fills in "::" can have to move more bytes than lie below its end; C does
  not define what happens then, and the model answers `OutOfArray`. `AddressOutcome.OutOfArrayIff` says exactly
  for which texts, `AddressOutcome.ShiftLeavesArray` has one, and `AddressOutcome.NoSlashStaysInside` is a
  condition that a caller can check: a text without a slash is safe.
- In an embedded IPv4 address an octet may be left out and counts as zero, except at the end
  (`AddressGrammar.QuadMeaning`).
- `inet_ntop6` tests for seven zero groups where only five or six can occur (`AddressText.SevenZeros`).
- The comment in `ares_search.c` says that a name with a trailing dot is asked for without it; the code keeps
  the dot (`Search.TrailingDotKept`).
- A numeric reference to something that is no character puts a NUL byte into an attribute value; inside
  quotes such characters and NUL itself are the only ones that do not come back
  (`HtmlRoundTrip.QuotedSurvives`, `HtmlRoundTrip.LostCharacters`).
- A start tag that is cut off before its ">" is popped without an end event (`HtmlShape.CutTagsBreakReplay`,
  `HtmlShape.CutTagReplays`).
- The end of a discarded start tag is taken for that of the element on top: `HtmlShape.MisplacedEnding` says
  what each ending does, and `HtmlShape.DiscardedTagCloses` is a document in which `<body/>` closes a div.

## Model

| member | source | states |
|---|---|---|
| Engine.NextServer | c-ares-1.7.5/ares_process.c:681-722 | Total for every state: the recursion between the two functions ends because the attempts left, servers times tries less the attempts made, go down; the result is well formed |
| Engine.SendQuery | c-ares-1.7.5/ares_process.c:724-812 | Total for every state and every outcome of sockets, allocation and writes; measured like NextServer |
| EngineSteps.NextServerCore | c-ares-1.7.5/ares_process.c:681-722 | From any sound state, moving a query on leaves a sound state in which the query either waits at a later attempt or has ended, and no other query is touched |
| EngineSteps.SendQueryCore | c-ares-1.7.5/ares_process.c:724-812 | The same for transmitting: the deadline is exactly the logged wait after now, and the attempt count never goes down |
| EngineSteps.ArmCore | c-ares-1.7.5/ares_process.c:793-812 | Setting the deadline and re-linking puts the query into the timer bucket of its new deadline and the list of its server, and nowhere else |
| EngineSteps.ReleaseCore | c-ares-1.7.5/ares_process.c:1211-1264 | After the release no queued request points into the query, every queue is still sound, no list has changed, and every connection incarnation is exactly what it was |
| EngineSteps.EndQueryCore | c-ares-1.7.5/ares_process.c:1207-1279 | Ending a query keeps every index, the history bounds and the queues sound, and runs its callback once |
| EngineOps.DrainTurn | c-ares-1.7.5/ares_process.c:641-662 | Each query met by the loop of handle_error is assigned to the failed server, as the assert there demands, and the list shrinks by it |
| EngineOps.HandleErrorInv | c-ares-1.7.5/ares_process.c:629-663 | handle_error keeps the invariant, and with more than one server no live query is assigned to the failed server afterwards |
| EngineOps.IndexIsScan | c-ares-1.7.5/ares_process.c:562-575 | Searching one query-id bucket finds the same query as searching the list of all queries in order |
| EngineOps.MatchFound | c-ares-1.7.5/ares_process.c:562-578 | The query found has the packet's id and all its questions; when none is found no listed query has |
| EngineApi.ProcessAnswerInv | c-ares-1.7.5/ares_process.c:535-613 | A packet changes at most the first live query with its id and questions, and nothing at all when there is none |
| EngineApi.AnswerOutcome | c-ares-1.7.5/ares_process.c:577-612 | What becomes of the query that a packet answers: a truncated datagram makes it use TCP; an error code makes it leave the server that sent it, which stays marked, at a later attempt if it was assigned there; anything else ends it with success |
| EngineCalls.ReplyOutcome | c-ares-1.7.5/ares_process.c:535-613 | The same in terms of the header fields, for every value of the others: TC or more than 512 bytes, and nothing else, makes a query go over from datagrams to TCP; without that, response code 2, 4 or 5 makes it leave the server, unless response codes are not to be looked at; any other code ends it with success |
| EngineCalls.CutOffRequeues | c-ares-1.7.5/ares_process.c:577-589 | A query that goes over to TCP keeps its attempt and its server, and with a connection and memory its whole buffer is queued there |
| EngineCalls.AnswersAre | c-ares-1.7.5/ares_process.c:562-575 | A live query is answered by exactly the packets that begin with the two bytes of its own packet and have the same questions |
| EngineCalls.AnswersOnWire | c-ares-1.7.5/ares_process.c:562-575 | For packets put together from ids, flags, counts and questions: exactly when the ids are equal and the questions are as many and each of the query is met in the reply by name, type and class |
| EngineCalls.SendOutcome | c-ares-1.7.5/ares_send.c:41-134 | A packet of less than 12 or of 65536 or more bytes is refused with status 7 and nothing else happens; any other is kept behind its two-byte length, for TCP if that is wished for or it is longer than 512 bytes, and is live afterwards or its callback has run |
| EngineCalls.SendWaitsFirst | c-ares-1.7.5/ares_send.c:103-133 | While nothing fails the new query waits at its first attempt at the server whose turn it is (the first one without rotation), and over TCP its whole buffer is queued there |
| EngineCalls.FailedSendLeaves | c-ares-1.7.5/ares_process.c:735-791 | A transmission that fails, by socket or by write, makes the query leave the server for a later attempt, and for good while there are other servers |
| EngineCalls.NoMemory | c-ares-1.7.5/ares_process.c:758-764 | Without memory for the request a query over TCP ends at once, with status 15, and its callback has run once |
| EngineCalls.CancelReports | c-ares-1.7.5/ares_cancel.c:33-50 | ares_cancel runs the callback of every live query, in the order in which the queries were begun, with status 24 and no timeouts, and reports nothing else |
| EngineCalls.FailureBreaks | c-ares-1.7.5/ares_process.c:1215-1264 | A query that fails leaves broken exactly the servers that still had a request of it to send, beside those that were broken before |
| EngineCalls.SuccessBreaks | c-ares-1.7.5/ares_process.c:1222-1250 | A query that succeeds leaves broken exactly those with a request of it that could not be copied |
| EngineRecovery.ClosedIsStale | c-ares-1.7.5/ares__close_sockets.c:53-59 | Once an open connection is closed, no live query bears a stamp of the server's present incarnation: each may be queued there again |
| EngineRecovery.NewIncarnation | c-ares-1.7.5/ares__close_sockets.c:53-59 | A connection that is opened or closed gets an incarnation number that no server of the channel has had |
| EngineRecovery.NextTakes | c-ares-1.7.5/ares_process.c:681-722 | While nothing fails a query goes to exactly the first server in turn that is not broken, that it has not given up on and that it has not been queued on, and waits there |
| EngineRecovery.ErrorMoves | c-ares-1.7.5/ares_process.c:629-663 | After an error every query assigned to that server is at a later attempt or gone, and every other is as it was |
| EngineRecovery.ErrorRequeues | c-ares-1.7.5/ares_process.c:629-663 | With one server and nothing else failing, after an error on its open connection every TCP query with an attempt left is live at the next attempt, its whole buffer queued on the connection opened anew |
| EngineBroken.NextSpares | c-ares-1.7.5/ares_process.c:681-722 | A query never comes to rest at a broken server, no mark of a broken server is lost on the way, and servers are given up on only once they have been due |
| EngineBroken.BrokenMoves | c-ares-1.7.5/ares_process.c:615-627 | After process_broken_connections every query that was assigned to a broken server is at a later attempt or gone |
| SendQueue.SentArrives | c-ares-1.7.5/ares_process.c:729-772 | From ares_send to the other end: a packet sent over TCP on a connection that is or comes up, memory permitting, is read by the server whole, after the packets that were waiting and before nothing else; the other servers' queues are as they were |
| EngineSend.SendInv | c-ares-1.7.5/ares_send.c:41-134 | ares_send keeps the invariant for every packet, refused, queued or written; no other query is touched and none but the new one is added |
| EngineSend.CancelInv | c-ares-1.7.5/ares_cancel.c:26-63 | ares_cancel leaves no query live and every index empty, and keeps the invariant |
| EngineSend.CancelDangles | c-ares-1.7.5/ares_cancel.c:33-62 | After ares_cancel all queued requests are sound if and only if sockets need not stay open or no request pointed into a query |
| EngineSend.AdvanceDropsPrefix | c-ares-1.7.5/ares_process.c:298-325 | Taking n bytes off a send queue drops exactly the first n bytes of its pending stream |
| EngineSend.WroteInv | c-ares-1.7.5/ares_process.c:298-325 | Taking bytes off a queue keeps the invariant: what is left of a request is still a suffix of its owner's buffer |
| EngineTimers.WalkInv | c-ares-1.7.5/ares_process.c:507-530 | Walking one timer bucket while queries leave it and come back keeps the invariant and leaves nothing overdue in it |
| EngineTimers.WheelIsScan | c-ares-1.7.5/ares_process.c:503-532 | The timer wheel does what a scan of all deadlines would: exactly the queries that are due are moved on, each to a later attempt with one more timeout counted and a deadline behind now, or to its end; the others are untouched, none is left overdue or behind the wheel, and the wheel stands at now |
| EngineTimers.ProcessTimeoutsInv | c-ares-1.7.5/ares_process.c:503-532 | process_timeouts keeps the invariant for every clock |
| EngineRun.StepInv | c-ares-1.7.5/ares_process.c:144-155 | Every call of the interface, in every environment, keeps the invariant |
| EngineRun.EveryRunIndexes | c-ares-1.7.5/ares_process.c:801-812 | After every run each live query is exactly once in each of the four kinds of list, where its id, deadline and server say, and nothing else is in any of them |
| EngineRun.EveryRunRetries | c-ares-1.7.5/ares_process.c:681-722 | After every run: a live query is at the server that lies its attempts behind its first one, which is server 0, or with rotation its own number modulo the servers; no query was transmitted more than servers times tries plus one times or waited in all longer than the doubling schedule allows |
| EngineRun.EveryRunWaits | c-ares-1.7.5/ares_process.c:793-806 | After every run: each wait is the base timeout doubled once per round of servers, times 9 to 16 sixteenths, rounded down; the transmissions of a query are those of ascending attempts, below the limit, but that an attempt made by datagram may be made again over TCP |
| EngineRun.EveryRunSwitches | c-ares-1.7.5/ares_process.c:577-589 | After every run a query has made at most one attempt twice, first by datagram and then over TCP, and used TCP from then on: this is the one transmission above its attempts |
| EngineRun.EveryRunEndings | c-ares-1.7.5/ares_process.c:681-722 | After every run: a query has ended refused or timed out if and only if its attempts were used up, it timed out if and only if a timeout was counted for it; and then each server has been considered exactly as often as tries says |
| EngineRun.EveryRunCallbacks | c-ares-1.7.5/ares_process.c:1266-1278 | After every run each query's callback has run once if the query has ended and not at all otherwise; with none live and no wish to stay open, all sockets and queues are gone |
| EngineRun.EveryRunSends | c-ares-1.7.5/ares_process.c:702-710 | After every run nothing was ever sent to a server the query had marked to skip, and no query was queued twice on one connection incarnation |
| EngineRun.EveryRunQueues | c-ares-1.7.5/ares_process.c:1215-1264 | After every run that does not cancel while staying open: each queued request is a suffix of its live owner's buffer, or owns its bytes, or its server is broken |
| EngineTurns.EveryServerTries | c-ares-1.7.5/ares_process.c:688-721 | Going round the servers in turn for all attempts considers each of them exactly as often as tries says, wherever one begins |
| EngineRun.CancelLeavesDangling | c-ares-1.7.5/ares_cancel.c:33-62 | On a channel that stays open and uses TCP, the run of one ares_send and one ares_cancel leaves a queued request that points into the freed query |
| EngineRun.SuccessKeepsPending | c-ares-1.7.5/ares_process.c:1215-1278 | A successful end leaves the pending bytes of every unbroken server alone, unless it was the last query and the sockets are closed |
| Channels.Channel.CloseSockets | c-ares-1.7.5/ares__close_sockets.c:27-66 | In place, with the source's loops, drops the queue in a loop, clears the broken mark and gives the connection a new incarnation; the channel ends up in exactly the state of the engine's step |
| Channels.Channel.EndQuery | c-ares-1.7.5/ares_process.c:1207-1279 | In place, with the source's loops, releases the requests server by server, runs the callback, frees the query and closes idle sockets; the channel ends up in exactly the state of the engine's step |
| Channels.Channel.Release | c-ares-1.7.5/ares_process.c:1211-1264 | In place, with the source's loops, goes over every request of every server; the channel ends up in exactly the state of the engine's step |
| Channels.Channel.NextServer | c-ares-1.7.5/ares_process.c:681-722 | In place, with the source's loops, is the loop over attempts; the channel ends up in exactly the state of the engine's step |
| Channels.Channel.SendQuery | c-ares-1.7.5/ares_process.c:724-812 | In place, with the source's loops, opens, queues or writes, and re-links the query; the channel ends up in exactly the state of the engine's step |
| Channels.Channel.HandleError | c-ares-1.7.5/ares_process.c:629-663 | In place, with the source's loops, closes, swaps the server's list away and moves every query on; the channel ends up in exactly the state of the engine's step |
| Channels.Channel.ProcessBrokenConnections | c-ares-1.7.5/ares_process.c:615-627 | In place, with the source's loops, handles the error of every broken server in turn; the channel ends up in exactly the state of the engine's step |
| Channels.Channel.ProcessTimeouts | c-ares-1.7.5/ares_process.c:503-532 | In place, with the source's loops, turns the wheel from the last pass to now; the channel ends up in exactly the state of the engine's step |
| Channels.Channel.ProcessBucket | c-ares-1.7.5/ares_process.c:510-530 | In place, with the source's loops, walks one bucket noting the next node before it handles the current one; the channel ends up in exactly the state of the engine's step |
| Channels.Channel.FindQuery | c-ares-1.7.5/ares_process.c:562-575 | In place, with the source's loops, searches the bucket of the packet's id; the channel ends up in exactly the state of the engine's step |
| Channels.Channel.ProcessAnswer | c-ares-1.7.5/ares_process.c:535-613 | In place, with the source's loops, decides between ignoring, switching to TCP, skipping the server and success; the channel ends up in exactly the state of the engine's step |
| Channels.Channel.Send | c-ares-1.7.5/ares_send.c:41-134 | In place, with the source's loops, refuses or admits a packet and transmits it; the channel ends up in exactly the state of the engine's step |
| Channels.Channel.Cancel | c-ares-1.7.5/ares_cancel.c:26-63 | In place, with the source's loops, ends all queries and, unless asked to stay open, closes all servers; the channel ends up in exactly the state of the engine's step |
| Channels.Channel.AdvanceSendQueue | c-ares-1.7.5/ares_process.c:298-325 | In place, with the source's loops, takes written bytes off the queue; the pending stream loses exactly its first n bytes; the channel ends up in exactly the state of the engine's step |
| Clock.TimedOutIsOrder | c-ares-1.7.5/ares_process.c:103-115 | On normalised times the two-field comparison is the order of points in time |
| Clock.TimeAddExact | c-ares-1.7.5/ares_process.c:118-130 | Adding milliseconds keeps a time normalised and moves it by exactly that much, one carry being enough |
| Clock.WaitBounds | c-ares-1.7.5/ares_process.c:793-797 | Each wait is between nine sixteenths and the whole of the doubled base, and at least 1 ms when the base is 2 ms or more |
| Clock.ScheduleClosed | c-ares-1.7.5/ares_process.c:793-795 | The unjittered waits of all rounds add up to servers times timeout times (2 to the tries, less 1) |
| Questions.CompareQuestions | c-ares-1.7.5/ares_process.c:1100-1177 | True if and only if both packets announce as many questions and each question of the request is met by one of the reply with equal name (ignoring case), type and class, all decoding inside the packets |
| Questions.FindQuestion | c-ares-1.7.5/ares_process.c:1140-1170 | Among the reply's questions one equals the given one and none before it fails to decode |
| Questions.StrCaseEqual | c-ares-1.7.5/ares_process.c:1162-1168 | Byte-wise comparison of two C strings is equality after lowering ASCII letters |
| DnsWire.SameTextIs | c-ares-1.7.5/ares_process.c:1162-1168 | Names without a NUL are equal in this sense if and only if they have one length and differ at most between a letter and its other case |
| DnsWire.SameOnWire | c-ares-1.7.5/ares_process.c:1100-1177 | Two packets put together from questions, with compressed names or not: same_questions answers yes if and only if the questions are as many and each of the first is met by one of the second |
| DnsWire.HeaderReads | c-ares-1.7.5/ares_dns.h:40-53 | The id, flag and count fields are found where a header has them |
| LinkedLists.InitListHead | c-ares-1.7.5/ares_llist.c:27-31 | The head alone is an empty list |
| LinkedLists.InitListNode | c-ares-1.7.5/ares_llist.c:34-38 | A fresh node is in no list |
| LinkedLists.IsListEmpty | c-ares-1.7.5/ares_llist.c:41-43 | True if and only if the list holds no node |
| LinkedLists.InsertInList | c-ares-1.7.5/ares_llist.c:46-52 | The circle is the old one with the node before the given position; only two neighbours change |
| LinkedLists.RemoveFromList | c-ares-1.7.5/ares_llist.c:55-62 | The circle is the old one without the node, which is then in no list; a node in no list is left alone |
| LinkedLists.SwapLists | c-ares-1.7.5/ares_llist.c:65-86 | Each head has the other's nodes in the same order, empty lists included, and no node's data change |
| LinkedLists.RemovedContents | c-ares-1.7.5/ares_llist.c:55-62 | Taking out a node takes out its query and keeps the order of the rest, as the engine's sequences do |
| ListWalk.WalkNodes | c-ares-1.7.5/ares_process.c:510-530 | The loop over the nodes of a list, noting the next node before the current one leaves or goes to the end, ends up with the nodes and queries that the walk by index gives |
| ListWalk.BucketWalk | c-ares-1.7.5/ares_process.c:510-530 | The engine's walk along a timer bucket is such a walk: what is not due stays, what is due leaves the bucket or goes to its end |
| ListWalk.AllLeave | c-ares-1.7.5/ares_process.c:641-662 | When every query met leaves the list, as in handle_error, each is met once, in order, and none is left |
| SendQueue.Queue.Append | c-ares-1.7.5/ares_process.c:758-770 | The request with the whole buffer comes last; head and tail pointers agree with the contents |
| SendQueue.Queue.Advance | c-ares-1.7.5/ares_process.c:298-325 | The contents are the engine's queue after the same bytes, the pending stream loses exactly its first bytes, and the head pointer is null if and only if the tail pointer is |
| SendQueue.PacketsArrive | c-ares-1.7.5/ares_send.c:84-90 | What a server reads off a fresh connection whose queue holds packets behind their lengths is exactly those packets, in order |
| SendQueue.Queue.Drop | c-ares-1.7.5/ares__close_sockets.c:31-41 | The queue is empty and both pointers are null |
| Names.TooManyJumps | c-ares-1.7.5/ares_expand_name.c:154-169 | Pigeonhole: a walk that has met more pointers than the message has bytes never ends |
| Names.HopsUnique | c-ares-1.7.5/ares_expand_name.c:146-188 | A walk that ends does so after one number of hops only |
| Names.NameLength | c-ares-1.7.5/ares_expand_name.c:143-188 | Succeeds if and only if the unbounded walk of section 4.1.4 of RFC 1035 stays in the message and meets a zero octet, and then gives the length of the escaped text |
| Names.CopyLabel | c-ares-1.7.5/ares_expand_name.c:118-127 | Writes exactly the escaped label and its period; the bytes of the buffer before and behind them stay as they were |
| Names.LongLabelResolves | c-ares-1.7.5/ares_expand_name.c:101-137 | A label of 64 to 191 bytes is expanded like any other |
| Names.WriteLabels | c-ares-1.7.5/ares_expand_name.c:101-137 | The unchecked second pass stays inside message and buffer and writes the escaped labels; it finds the encoded length where the name stands |
| Names.ExpandName | c-ares-1.7.5/ares_expand_name.c:65-138 | Fails exactly when the walk does; otherwise the buffer holds the escaped labels and one NUL, and the encoded name ends inside the message |
| DnsWire.NameReads | c-ares-1.7.5/ares_expand_name.c:65-138 | A name put into a message, ending in a zero or in a pointer to another name, is expanded to its labels and those it points to, and takes the bytes that were put there |
| DnsWire.TextOf | c-ares-1.7.5/ares_expand_name.c:118-134 | The text of a name: its labels with a period between them, and a backslash before each period and each backslash of a label |
| MkQuery.MeasureName | c-ares-1.7.5/ares_mkquery.c:101-113 | The space reserved for the name, as the source counts it |
| MkQuery.ReadLabel | c-ares-1.7.5/ares_mkquery.c:161-179 | The label's bytes with escapes resolved, and what follows it |
| MkQuery.WriteLabels | c-ares-1.7.5/ares_mkquery.c:156-186 | The length-prefixed labels, or failure if and only if one is empty or longer than 63 |
| MkQuery.MakeQuery | c-ares-1.7.5/ares_mkquery.c:88-195 | Refuses exactly the names that are too long or have a bad label; otherwise header, encoded name, type and class; the bytes written fit in the length allocated if and only if the name does not end in an escaped period |
| MkQuery.ReportedLength | c-ares-1.7.5/ares_mkquery.c:101-113 | The length computed beforehand is the length written, except one too many for "." and one too few after an escaped final period |
| MkQuery.LengthExamples | c-ares-1.7.5/ares_mkquery.c:101-113 | The name `a\.` needs a byte more than its length allows for, and the name "." a byte less |
| MkQuery.QueryRoundTrip | c-ares-1.7.5/ares_mkquery.c:88-195 | Expanding the name in the packet gives back the labels that were escaped, and the packet is header, name and four bytes; the length reported falls short by one exactly for an escaped final period |
| MkQuery.LastLabelDot | c-ares-1.7.5/ares_mkquery.c:112-113 | The text ends in an escaped period if and only if the last label ends in one |
| QueryWire.PacketBytes | c-ares-1.7.5/ares_mkquery.c:128-195 | The packet is a header with the id, the recursion bit and one question, and the question: labels, zero, type and class, most significant byte first |
| QueryWire.PacketReads | c-ares-1.7.5/ares_mkquery.c:128-195 | What a server reads in it: id, recursion bit and no other flag, one question and no records, and the name, type and class that were asked for, up to the last byte |
| QueryWire.TakenIff | c-ares-1.7.5/ares_mkquery.c:101-165 | A query is built for exactly the names whose labels have 1 to 63 bytes and that take at most 255 bytes on the wire, one more being let through when the last label ends in a period |
| QueryWire.TextRead | c-ares-1.7.5/ares_mkquery.c:161-179 | A period ends a label, a backslash stands for the byte behind it and at the very end for itself, and any other byte for itself |
| QueryWire.Periods | c-ares-1.7.5/ares_mkquery.c:156-186 | A period at the end changes nothing; one at the beginning or two in a row are refused |
| Framing.TcpInput.ReadTcpData | c-ares-1.7.5/ares_process.c:366-422 | One read fills the length buffer or the message buffer in place, at most two and at most the announced length, and hands a full message on |
| Framing.Segmentation | c-ares-1.7.5/ares_process.c:366-422 | However a stream of non-empty messages is cut into reads, exactly those messages are handed on in order |
| Framing.PartWay | c-ares-1.7.5/ares_process.c:366-422 | At any moment the messages handed on are the first ones sent |
| Framing.UnframeFrame | c-ares-1.7.5/ares_process.c:387-393 | Cutting a stream into messages undoes putting lengths before them |
| Framing.CutBackIff | c-ares-1.7.5/ares_process.c:366-422 | A stream of messages is cut back into all of them if and only if none is empty |
| Framing.StuckOnEmpty | c-ares-1.7.5/ares_process.c:398-406 | The reader asks for nothing if and only if a length of zero was announced; then whatever the next read brings within that is nothing, which is taken for the end of the connection |
| Framing.EmptyMessageSticks | c-ares-1.7.5/ares_process.c:398-406 | The stream of one empty message is not cut back into it, and leaves a new connection stuck with nothing handed on |
| AReply.ParseAReply | c-ares-1.7.5/ares_parse_a_reply.c:54-263 | Status, host entry and times to live are those that the decoded records mean, for every packet; which records the bytes of a packet hold, and what each means, ReplyWire says |
| AReply.SuccessfulReply | c-ares-1.7.5/ares_parse_a_reply.c:126-224 | A reply is bad if and only if header, question or a record does not decode; otherwise it lists in order the data of exactly the matching address records, the CNAME owners as aliases, and for each address the least of its own time to live and those of all CNAME records |
| ReplyWire.RecordReads | c-ares-1.7.5/ares_parse_a_reply.c:126-143 | A record put into a message field by field (owner, type, class, 32-bit time to live, length and data) is read back as that record, and the next begins behind it |
| ReplyWire.RecordsRead | c-ares-1.7.5/ares_parse_a_reply.c:126-224 | Any list of records written one after another is read back, all of them, in their order |
| ReplyWire.ReplyReads | c-ares-1.7.5/ares_parse_a_reply.c:71-224 | For a header that announces one question and n answers, a question and n records, what is decoded is the name of the question and exactly those records |
| ReplyWire.OneMore | c-ares-1.7.5/ares_parse_a_reply.c:145-196 | What one more record adds, by its numbers: class 1 type 1 with four bytes and the name as it stands an address, class 1 type 5 an alias, a new name and a limit, anything else nothing |
| ReplyWire.AliasThenAddress | c-ares-1.7.5/ares_parse_a_reply.c:126-263 | A reply of an alias and the address of what it leads to, byte by byte: success, an entry with that name, that alias and that address, kept no longer than the alias |
| ReplyWire.AddressThenAlias | c-ares-1.7.5/ares_parse_a_reply.c:126-263 | With the address first: it is kept as an address of the name asked for, and the alias behind it limits it all the same |
| AReply.AnswersInOrder | c-ares-1.7.5/ares_parse_a_reply.c:145-173 | Every record that answers is reported, once, in the order of the reply |
| AReply.ChainTtlIs | c-ares-1.7.5/ares_parse_a_reply.c:192-194 | The limit is the least time to live of all CNAME records, wherever they stand |
| AReply.LastCname | c-ares-1.7.5/ares_parse_a_reply.c:184-190 | The name that addresses are compared with is what the last CNAME before them says |
| Search.SearchQuery.SearchCallback | c-ares-1.7.5/ares_search.c:143-203 | One outcome leads to the next query or to the caller, with the fields updated as in the state machine |
| Search.SearchExhausted | c-ares-1.7.5/ares_search.c:143-203 | When every query fails softly all candidates were tried once each in order, the name as it is first if and only if it has enough dots; the caller is told once, the timeouts summed, ENOTFOUND turned into ENODATA when anything had no data |
| Search.SearchStops | c-ares-1.7.5/ares_search.c:152-155 | The first other outcome ends the search there and is passed on with the timeouts so far |
| Search.TrailingDotKept | c-ares-1.7.5/ares_search.c:244-250 | A name with a trailing dot is asked for as it is, dot and all, and nothing else is; the caller is told what that query was told |
| Search.SearchSilent | c-ares-1.7.5/ares_search.c:172-194 | Until then the caller hears nothing |
| Search.SearchOutcome | c-ares-1.7.5/ares_search.c:96-203 | After any replies: which names have been asked for, with a period before each domain, and what the caller has been told, in terms of the statuses 1, 3 and 4 that let a search go on and of the number of periods in the name |
| Search.SingleQuery | c-ares-1.7.5/ares_search.c:232-320 | When there is nothing to search, exactly one name is asked for, the name itself or its alias, and the caller is told what that query was told |
| AddressText.FindBest | c-ares-1.7.5/inet_ntop.c:141-164 | The first of the longest runs of zero groups, if two groups or more |
| AddressText.Ntop4 | c-ares-1.7.5/inet_ntop.c:98-109 | Four decimal numbers with periods, or an error when the buffer does not hold them with the NUL |
| AddressText.Ntop6 | c-ares-1.7.5/inet_ntop.c:118-207 | The one text of the address, or an error when the buffer does not hold it with the NUL |
| AddressText.PrintsUnique | c-ares-1.7.5/inet_ntop.c:138-196 | An address has only one text |
| AddressText.TextLength | c-ares-1.7.5/inet_ntop.c:129-196 | No text overflows the 46-byte buffer |
| AddressText.SevenZeros | c-ares-1.7.5/inet_ntop.c:182-184 | The test for seven zero groups never decides anything: when it is reached the run has five or six |
| AddressText.TextLooks | c-ares-1.7.5/inet_ntop.c:118-207 | A text has digits, lower-case letters a to f and colons only, and periods exactly for addresses that begin with 96 zero bits and a nonzero group, or with 80 zero bits and 16 ones |
| AddressParser.GetBits | c-ares-1.7.5/inet_net_pton.c:203-231 | Exactly the numerals of 0 to 128 without leading zeros are accepted, for the number they are the numeral of |
| AddressParser.GetV4 | c-ares-1.7.5/inet_net_pton.c:234-275 | Accepts exactly the texts of up to four octets, with a width or without, and writes those octets in place and nothing else |
| AddressParser.ScanText | c-ares-1.7.5/inet_net_pton.c:292-346 | The loop over the characters: its result is that of the function Scan, whose meaning AddressMeaning and AddressOutcome give, and the 16-byte array holds the bytes written and zeros |
| AddressParser.ShiftUp | c-ares-1.7.5/inet_net_pton.c:363-378 | The shift by hand, in place |
| AddressParser.InetNetPton6 | c-ares-1.7.5/inet_net_pton.c:278-395 | In place, the answer of the function Pton6 to every text; what that is AddressOutcome.PtonMeaning says |
| AddressGrammar.WidthText | c-ares-1.7.5/inet_net_pton.c:203-231 | getbits answers v if and only if the text is the numeral of v and v is at most 128 |
| AddressGrammar.QuadMeaning | c-ares-1.7.5/inet_net_pton.c:234-275 | getv4 reads these octets and this width if and only if the text is theirs: numerals of up to 255 with periods between, where nothing at all stands for zero except at the end, and perhaps a slash and a width |
| AddressOutcome.GroupsRead | c-ares-1.7.5/inet_net_pton.c:301-333 | Groups of one to four hexadecimal digits with at most one gap among them, each with a colon behind it, add their bytes, two each, to what has been read, and note where the gap is |
| AddressMeaning.TailRead | c-ares-1.7.5/inet_net_pton.c:301-346 | Behind the last colon: a group, a group and a width, or an IPv4 address with a width or without is read as the bytes and the width it denotes, if there is room |
| AddressMeaning.NothingWrittenIff | c-ares-1.7.5/inet_net_pton.c:327-328 | Over all texts: the answer is 0 with nothing written if and only if the text begins with nine groups of one to four hexadecimal digits of either case, each with a colon behind it and at most one gap among them, and goes on behind the ninth colon |
| AddressOutcome.PtonMeaning | c-ares-1.7.5/inet_net_pton.c:278-395 | The answer to every text: if it consists of groups and a last group, width or IPv4 address, their bytes are put in place, with "::" filled up by zeros; if it begins with nine groups, 0; otherwise no address |
| AddressOutcome.OutOfArrayIff | c-ares-1.7.5/inet_net_pton.c:363-378 | Over all texts: the shift runs below the array if and only if the text has "::" and more bytes behind it than the prefix it names, and all its bytes together are not exactly that many |
| AddressOutcome.NoSlashStaysInside | c-ares-1.7.5/inet_net_pton.c:352-378 | A text without a slash never makes the shift leave the array |
| AddressOutcome.ShiftLeavesArray | c-ares-1.7.5/inet_net_pton.c:363-378 | The text ::1:2:3/16 does |
| AddressRoundTrip.ShiftMeaning | c-ares-1.7.5/inet_net_pton.c:363-378 | With room below the end, the shift moves the bytes behind "::" up and leaves zeros between |
| AddressRoundTrip.QuadRoundTrip | c-ares-1.7.5/inet_net_pton.c:234-275 | Four octets printed in decimal are read back |
| AddressRoundTrip.RoundTrip6 | c-ares-1.7.5/inet_ntop.c:118-207 | Every 16-byte address is read back from its text, with 128 bits |
| AddressRoundTrip.TextInjective | c-ares-1.7.5/inet_ntop.c:118-207 | Two addresses never share a text |
| AddressRoundTrip.NineGroups | c-ares-1.7.5/inet_net_pton.c:327-328 | It happens: nine or more groups as printed, and anything behind them, get 0 with nothing written, not the -1 that the comment promises for failures |
| AddressParse4.EatNumber | c-ares-1.7.5/inet_net_pton.c:116-124 | The value of a run of decimal digits, or failure if and only if it exceeds the limit |
| AddressParse4.EatHex | c-ares-1.7.5/inet_net_pton.c:88-112 | A byte for every two hex digits, a last odd one in the upper half |
| AddressParse4.InetNetPton4 | c-ares-1.7.5/inet_net_pton.c:77-200 | Bits and bytes for every text, given or inferred width included, or the error |
| AddressParse4.RoundTrip4 | c-ares-1.7.5/inet_net_pton.c:77-200 | Every 4-byte address is read back from its text, with 32 bits, whatever its class |
| AddressParse4.RoundTripWidth4 | c-ares-1.7.5/inet_net_pton.c:139-158 | With a width up to 32 behind it, the same bytes and that width |
| AddressParse4.ImpliedWidth | c-ares-1.7.5/inet_net_pton.c:163-198 | Octets without a width get that of the class of the first, or more when more octets are given, and 4 for 224 alone; zeros are added up to it or the room does not suffice |
| AddressParse4.HexAsDecimal | c-ares-1.7.5/inet_net_pton.c:88-112 | The bytes in hexadecimal behind 0x mean what the octets in decimal mean |
| AddressParse4.OddHex | c-ares-1.7.5/inet_net_pton.c:106-112 | A last digit by itself is the upper half of a byte |
| Utf8.NextOfBytes | libxml2-2.7.4/HTMLparser.c:2010-2040 | Reading a character undoes writing it in shortest form, for every character |
| HtmlEntities.ValueLookup | libxml2-2.7.4/HTMLparser.c:1863-1875 | The row with that value, or none if and only if the ascending table has none |
| HtmlEntities.NameLookup | libxml2-2.7.4/HTMLparser.c:1840-1850 | The first row with that name |
| HtmlEntities.EncodeEntities | libxml2-2.7.4/HTMLparser.c:1997-2077 | Encodes character by character until one is cut off, malformed or does not fit; reports output and the input consumed; what the output is HtmlOutput and HtmlRoundTrip say |
| HtmlOutput.OutputHarmless | libxml2-2.7.4/HTMLparser.c:2042-2072 | For every input, valid or not, and every room: the output is ASCII without angle brackets and without the quote, and each ampersand in it begins a reference, a name or a decimal number, that a semicolon ends |
| HtmlOutput.PlainCopied | libxml2-2.7.4/HTMLparser.c:2042-2048 | ASCII text without ampersand, angle brackets and the quote is copied as it is, as far as there is room |
| HtmlOutput.OthersEscaped | libxml2-2.7.4/HTMLparser.c:2049-2072 | Any other character is written as its name in the table, or as its decimal number when it has none |
| HtmlOutput.StopsBehind | libxml2-2.7.4/HTMLparser.c:2010-2040 | Behind valid characters a byte that begins none gives -2 and a character cut off by the end gives 0; what stands before is written and consumed either way |
| HtmlOutput.BrokenBehind | libxml2-2.7.4/HTMLparser.c:2030-2036 | So does -2 a character whose second byte does not go on with it |
| HtmlAttributes.ParseCharRef | libxml2-2.7.4/HTMLparser.c:3204-3263 | The decimal or hexadecimal value, or 0 for one that is no character |
| HtmlAttributes.ParseName | libxml2-2.7.4/HTMLparser.c:2359-2425 | The accelerator for ASCII names and the general loop find the same name |
| HtmlAttributes.ParseEntityRef | libxml2-2.7.4/HTMLparser.c:2580-2615 | The named character, or the text as it stood when the name is unknown or lacks its semicolon, as HtmlValues.NamedReference and TextKept spell out |
| HtmlAttributes.ParseHTMLAttribute | libxml2-2.7.4/HTMLparser.c:2440-2565 | The value up to the stop character, and how much of the input it took |
| HtmlValues.TextKept | libxml2-2.7.4/HTMLparser.c:2440-2565 | Text without an end, without "&#" and without "&name;" of a name in the table comes out as it is, every ampersand and the name behind it included, and is taken whole |
| HtmlValues.ValueEnds | libxml2-2.7.4/HTMLparser.c:2459-2466 | Quoted or not, a value is taken up to exactly the first character that closes it: NUL, the quote, or without a quote ">" or a blank |
| HtmlValues.HexReference | libxml2-2.7.4/HTMLparser.c:3204-3263 | "&#x" or "&#X", the hexadecimal numeral of a character in digits of either case and ";" give that character, or a NUL when XML does not allow it |
| HtmlValues.DecimalReference | libxml2-2.7.4/HTMLparser.c:3204-3263 | "&#", the decimal numeral and ";" do the same |
| HtmlValues.NamedReference | libxml2-2.7.4/HTMLparser.c:2500-2548 | "&", a name in the table and ";" give its character |
| HtmlRoundTrip.Resume | libxml2-2.7.4/HTMLparser.c:1997-2077 | A call that stopped and one that goes on where it stopped do together what one call with room for both does |
| HtmlRoundTrip.EncodingInCalls | libxml2-2.7.4/HTMLparser.c:1997-2077 | Any number of calls that go on from one another write the beginning of the one-call encoding, the rest of which is the encoding of what they left |
| HtmlRoundTrip.Progress | libxml2-2.7.4/HTMLparser.c:2042-2072 | Ten bytes of room get past any well-formed character |
| HtmlRoundTrip.ParseUndoesEncode | libxml2-2.7.4/HTMLparser.c:2440-2565 | For every stop character: reading an encoded text gives back its bytes if and only if every character is denoted by what is written for it and not mistaken for the end; then the encoding is read whole |
| HtmlRoundTrip.QuotedSurvives | libxml2-2.7.4/HTMLparser.c:2042-2058 | Inside quotes those are all characters but NUL and what is neither left alone nor named nor allowed in a numeric reference |
| HtmlRoundTrip.LostCharacters | libxml2-2.7.4/HTMLparser.c:3204-3263 | It happens: U+FFFE, unless named, comes back as a NUL byte, and from NUL on nothing comes back |
| HtmlRoundTrip.RoundTrip | libxml2-2.7.4/HTMLparser.c:1997-2077 | Text of such characters, encoded in any calls that consume it, is what the attribute parser makes of the output |
| HtmlTags.NeverClosed | libxml2-2.7.4/HTMLparser.c:997-1052 | No start tag closes an open html or body element |
| HtmlShape.AutoCloseIs | libxml2-2.7.4/HTMLparser.c:1309-1330 | A start tag closes exactly the elements on top that it may close, down to the first it may not, with one end event each |
| HtmlShape.AutoCloseStops | libxml2-2.7.4/HTMLparser.c:1309-1330 | An open html or body survives the closing that any start tag brings |
| HtmlShape.EveryDocument | libxml2-2.7.4/HTMLparser.c:3576-3616 | After any sequence of tags and text: html only at the bottom (and always there when omitted tags are implied), head only right above it, one body at most, no empty element left open |
| HtmlShape.EventsReplay | libxml2-2.7.4/HTMLparser.c:4152-4165 | After any sequence of tags and text the events sent replay to the open elements if and only if no cut-off start tag has popped one |
| HtmlShape.CutTagsBreakReplay | libxml2-2.7.4/HTMLparser.c:4152-4165 | With omitted tags implied, the events replay to the open elements if and only if the document has no cut-off start tag |
| HtmlShape.CutTagReplays | libxml2-2.7.4/HTMLparser.c:4152-4165 | It happens: after a single p tag that is cut off, the events do not replay to the open elements |
| HtmlShape.LedgerKept | libxml2-2.7.4/HTMLparser.c:163-210 | Start events less end events are the open elements and the cut tags, after every single tag |
| HtmlShape.EndTagCloses | libxml2-2.7.4/HTMLparser.c:1240-1275 | An end tag closes down to the nearest element of its name through elements of no higher priority, if there is one, and otherwise changes nothing |
| HtmlShape.MisplacedPair | libxml2-2.7.4/HTMLparser.c:3583-3616 | A misplaced html, head or body start tag that ends with ">" and its end tag cancel out |
| HtmlShape.MisplacedEnding | libxml2-2.7.4/HTMLparser.c:4125-4180 | For every way a misplaced start tag can end: the elements that were open stay so if and only if it ends with ">"; "/>" closes the one on top, with its end event, and being cut off removes it without one |
| HtmlShape.DiscardedTagCloses | libxml2-2.7.4/HTMLparser.c:4143-4150 | In the document div, body with "/>", the discarded tag closes the div |
| HtmlShape.EveryText | libxml2-2.7.4/HTMLparser.c:1458-1488 | Wherever characters come in a document, with omitted tags implied, they go into an open element that is neither html nor head nor an empty one |
| HtmlImplied.FirstTag | libxml2-2.7.4/HTMLparser.c:1394-1446 | The open elements after the first start tag of a document, each with its start event: title, script, style, meta, link and base have html and head as parents, frames and head and body have html, html has none, everything else has html and body |
| HtmlImplied.UnderHtml | libxml2-2.7.4/HTMLparser.c:1410-1445 | With only html open: what belongs into the head gets one unless there has been one, and everything else but frames gets a body unless there has been one |
| HtmlImplied.TagOpens | libxml2-2.7.4/HTMLparser.c:4125-4188 | An ordinary start tag inside head or body is opened where what it closes has been closed, and nothing else with it; it stays open exactly when it ends in ">" and is no empty element, and is otherwise closed at once, with its end event unless it was cut off |
| HtmlImplied.VoidTag | libxml2-2.7.4/HTMLparser.c:4180-4187 | A br, img, input or other element without content leaves nothing open, with a slash or without, and sends both its events |
| HtmlImplied.NextOfKind | libxml2-2.7.4/HTMLparser.c:997-1052 | A paragraph, list item, option, link, form or table part ends where the next of its kind begins, terms and their descriptions and the two kinds of table cell take turns, and a paragraph ends at a div, list, table, form or heading |
| HtmlImplied.TextOpens | libxml2-2.7.4/HTMLparser.c:1458-1488 | Characters before any tag get a paragraph in a body; where they may stand they open nothing |
| HtmlImplied.EndTagReach | libxml2-2.7.4/HTMLparser.c:1240-1275 | An end tag looks below an open element of another name exactly when that does not rank higher in the order html, head and body, table, its sections, row, cell, div, everything else |
| HtmlParser.Context.AutoCloseFor | libxml2-2.7.4/HTMLparser.c:1309-1330 | In place, the loop of htmlAutoClose |
| HtmlParser.Context.Imply | libxml2-2.7.4/HTMLparser.c:1394-1446 | In place, the implied html, head and body |
| HtmlParser.Context.ParseStartTag | libxml2-2.7.4/HTMLparser.c:3576-3720 | In place; says whether the tag was discarded as misplaced |
| HtmlParser.Context.ParseElement | libxml2-2.7.4/HTMLparser.c:4125-4188 | In place, with the three ways a start tag's text can end |
| HtmlParser.Context.AutoCloseOnClose | libxml2-2.7.4/HTMLparser.c:1240-1275 | In place, the search by priority and the closing loop |
| HtmlParser.Context.ParseEndTag | libxml2-2.7.4/HTMLparser.c:3747-3843 | In place; says whether an element was closed |
| HtmlParser.Context.CheckParagraphFor | libxml2-2.7.4/HTMLparser.c:1458-1488 | In place, the implied paragraph |
| HtmlParser.Context.AutoCloseOnEnd | libxml2-2.7.4/HTMLparser.c:1284-1295 | In place, everything is closed from the top |

## Left out

- Sockets, `select`, file-descriptor sets and socket options: their outcomes are parameters. The wall clock and `rand()` are parameters too.
- User callbacks only record their outcome; they do not call back into the channel. What a callback is given besides status and timeouts is not modelled.
- Engine.State: queries are named by numbers that are never reused, and a query record is a map entry; the link between a heap node of `LinkedLists` and the list of a channel is by contents, not by pointer.
- Channels.Channel: lists and queues are sequences that the methods reassign; `LinkedLists`, `ListWalk` and `SendQueue` show the pointer work separately, and a node is taken out of whichever list holds it by removing its query from all.
- AddressOutcome.PtonMeaning: for "::" with a width whose prefix is shorter than all bytes together, the bytes are given by the shift itself (`ShiftFrom`); they overlap, and no shorter description is given.
- Clock.Wait: integer overflow of the shifted timeout is not modelled, numbers being unbounded.
- EngineRun.EveryRunRetries: query ids are given by the packet; nothing is claimed about their being unique.
- Engine.SendQuery: a query that ends for lack of memory is modelled, other allocation failures are not.
- MkQuery.MakeQuery: the output is a sequence that grows instead of a buffer allocated beforehand; what a refused name has written before it was refused is not kept.
- Names.ExpandName: failure to allocate the result is not modelled.
- AReply.ParseAReply: address, alias and time-to-live arrays are growing sequences; allocation failures are not modelled.
- AddressText.Ntop6, AddressParse4.InetNetPton4: text and octets are appended to sequences; that the 46-byte buffer suffices is `AddressText.TextLength`.
- Framing.TcpInput: process_answer only records the message it is given; closing the connection while a message is handled is not modelled.
- Search.SearchQuery: the host alias file is a parameter and failures to allocate are not modelled; an empty name, of which the source reads the byte before the first, is excluded.
- HtmlEntities.EncodeEntities: the 253 rows of the entity table are a parameter of which only `TableOk` is used, that values ascend, names are distinct and made of at most eight letters and digits.
- HtmlAttributes.ParseHTMLAttribute: the input is a sequence of characters; decoding bytes into them (`htmlCurrentChar`, encoding switches), growing the output buffer and the Unicode classes of name characters are not part of this model. The value of a character reference is unbounded.
- HtmlStack.Run: which tags and texts a document brings is an arbitrary sequence of actions; tokenising, attributes, comments, scripts and push mode are left out.
- Configuration, resolv.conf, other record types, address sorting, the serialiser and the crawler's own headers would add only easy or unseen members.
