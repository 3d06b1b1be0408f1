# librinoo, verified

A Dafny model of the parts of librinoo (a coroutine and asynchronous I/O library in C) that hold
its logic: the red-black tree, the run queue on top of it, the scheduler's wait protocol, the
rendezvous channel, the HTTP head printers and parsers, the DNS name codec, MurmurHash3, the
streaming Base64 encoder and the gathering write. `dafny verify dfyconfig.toml` checks all of it.

Code that updates structures in place is modelled by classes and methods with loops, each proved
against a function or predicate; protocols are step systems over which runs are quantified. Kernel
calls, the clock and what tasks do while they run are inputs.

| file | models |
|---|---|
| `RbTree.dfy` | src/struct/rbtree.c: heap nodes with parent links, a cached head |
| `RunQueue.dfy`, `TaskDriver.dfy` | src/scheduler/task.c: a stable priority queue, and the tree that refines it |
| `Scheduler.dfy` | src/scheduler/scheduler.c and node.h: mode bits, one node, all interleavings |
| `Channel.dfy` | src/scheduler/channel.c: the slot, and one writer with one reader |
| `HttpMachine.dfy`, `HttpTables.dfy` | the grammars, and the generated tables with their binary searches |
| `HttpHeaders.dfy` | src/proto/http/http_header.c over the tree |
| `HttpParse.dfy`, `HttpRoundTrip.dfy`, `HttpPrint.dfy` | one run of a parser; what is printed is read back |
| `HttpStream.dfy`, `HttpConnection.dfy` | heads that come in pieces; the http structure and its operations |
| `HttpGrammar.dfy`, `HttpSession.dfy` | the grammars as languages; the parsers accept exactly these |
| `HttpLines.dfy`, `HttpContent.dfy`, `HttpValues.dfy` | what a run knows of the text behind it: the length announced and the content, which URIs, messages and header values come back |
| `Dns.dfy` | names on the wire, the record readers, the query encoder |
| `Murmur3.dfy` | the hash functions as chains of invertible steps |
| `Base64.dfy` | the encoder, and the encoding and decoding of section 4 of RFC 4648 |
| `Writev.dfy` | the write loop over an array of vectors |
| `Wrappers.dfy` | optional values and concatenation |

## How it is put together

**Tree.** Each node carries ghost coordinates: its place in the in-order sequence `contents`, the
stretch of its subtree, its black height. Every invariant is then a fact about one node and its
neighbours. `InOrderIsContents` and `PathsBalanced` say what the coordinates mean: following the
links in order yields `contents`, and every way from the root to a missing child passes the same
number of black nodes. `Valid` holds the links, the colours, the black root, the equal heights,
`head` as the first of `contents` and `size` as its length; every operation keeps it, so after any
run of puts and removes the head is the leftmost node.

**Run queue.** rn_task_cmp is not antisymmetric on equal deadlines, so the tree is not ordered by it
in the usual sense. What the descent needs is `Cuts`: along the in-order sequence the new data
compares greater, then smaller. The driver proves it from its own queue, a sequence sorted by
deadline and then by time of scheduling.

**Scheduler and channel.** A step runs from resume to release. `Legal` runs are quantified over; the
methods of `Monitor` and `Chan`, which update fields as the source does, are proved equal to the
functions the steps use.

**HTTP.** `Delta` writes the automata down as the grammars read. The tables, copied row by row, are
proved to say the same in every state for every character, and the binary searches to find what a
scan of a row finds. On top of `Run`, the fold of steps, stand the round trips and the independence
of chunking. `ParseBuffer` is the in-place parser, with its header tree, proved to do what `Run` says.
`IsHead` states the grammars without an automaton, as texts put together from their parts. For every
state `Rest` is the language of what may follow, and one character leads from it as the automaton
goes; so the parsers accept exactly the grammars, wait exactly while a head can still come of what
they have, and reject everything else (`AcceptsGrammar`, `WaitsForGrammar`, `RejectsOthers`).
`Known` is an invariant of all runs: where lines start, which key a state has spelled, what the marks
enclose. From it follow the length that any accepted head announces and what can come back at all.

**DNS.** `EndsIn` counts the pointers that a name follows; the readers are specified on every name that
ends, and on no other does rn_dns_name_get return. A buffer knows the size of its array apart from
the room it has been told of; once it writes past the array nothing is promised any more.

**Hashes.** Every step of the hash is paired with one that undoes it; a generic argument about
hashes that take in blocks without losing any of them gives the collision results.

## Where a property needs a condition

- A Content-Length that is printed is read back unchanged exactly if it is at most INT_MAX or equal
  to the greatest size_t, because the parser uses atoi (`LengthComesBack`).
- A host name comes back from its query exactly if it has no empty label and no dot at its end
  (`HostComesBack`, `QueryAndRead`).
- Base64 after other characters in the same buffer is the standard encoding exactly if their number
  is a multiple of four (`StreamAfter`).
- A URI or message that is printed is read back unchanged exactly if it is ASCII and has no line break
  in it (`UriComesBack`, `MsgComesBack`). Headers are, exactly if every line break in a value is
  followed by a blank and then by something other than a line break (`RequestHeadersComeBack`,
  `ResponseHeadersComeBack`).
- The content of a message is the bytes after its head, as many as the head announces, exactly if the
  number announced is at most INT_MAX (`ContentIsNext`). For a greater one, of which 32 bits are left,
  the stretch reported lies inside the buffer exactly if those bits make no negative int, or the head
  is so short that its length and the 32 bits do not add up to 2^32; otherwise the sum of the lengths
  wraps. A request that announces 4294967295 bytes is received at once, with a content of SIZE_MAX
  bytes behind the buffer (`WrappedLength`).
- rn_task_driver_run returns the milliseconds to the next deadline exactly if they are at most INT_MAX;
  it returns -1 for an empty queue and for one whose delay, modulo 2^32, is 2^32 - 1 (`Run`, `ToAhead`).
- The name in a PTR record stays inside the 256 bytes meant for it exactly if it is stored as it would
  be with 256 bytes of room, which its label lengths tell: rn_dns_record_get gives the size of the
  structure around the array (`WithinMeans`, `WithinByLength`). `PtrOverrun` is a record of 289 bytes
  for which it does not; what the readers promise about PTR records is conditional on it.
- A name is read to its end exactly if that takes no more pointers than the packet has places
  (`EndsSoon`); names with backward pointers are (`BackwardEnds`), names that lead back to themselves
  are not (`CircleNeverEnds`).
- The loop that encodes a host name comes to its end exactly if no label has more than 127 bytes
  (`LoopEnds`).
- A request stream is never dropped exactly if it starts with a head of the grammar or a head starts
  with it (`NothingDropped`); otherwise the rejected head is dropped with all that was read together
  with it.
- The writer of buffers with no bytes at all in them succeeds only if the kernel first says that it
  would block; `Succeeds` says for every sequence of kernel results whether the write succeeds.

## Model

| member | source | states |
|---|---|---|
| `RbTree.Tree.constructor` | src/struct/rbtree.c:210-220 | a new tree is valid and empty |
| `RbTree.Tree.RotateLeft` | src/struct/rbtree.c:37-58 | the rotation keeps all links and the in-order sequence, and moves only the named links |
| `RbTree.Tree.RotateRight` | src/struct/rbtree.c:60-81 | the mirror image |
| `RbTree.Tree.InsertColor` | src/struct/rbtree.c:83-133 | from a tree whose only fault is the red leaf just attached, the fix-up restores colours, equal heights and the black root, and keeps links and order |
| `RbTree.Tree.Descend` | src/struct/rbtree.c:270-285 | the descent stops at equal data or at the free slot between what compares smaller and what compares greater; `first` iff that slot is the leftmost |
| `RbTree.Tree.Put` | src/struct/rbtree.c:260-308 | the tree stays valid, the node enters the in-order sequence at the place where the comparator cuts it; on a tie nothing changes |
| `RbTree.Tree.RemoveColor` | src/struct/rbtree.c:135-208 | from a tree with one slot lacking a black node, the fix-up restores the tree; the sibling it reads is never null and the loop ends |
| `RbTree.Tree.SiblingExists` | src/struct/rbtree.c:140-150 | a slot that lacks a black node has a sibling |
| `RbTree.Tree.OnlyChildIsRedLeaf` | src/struct/rbtree.c:379-385 | an only child is a red leaf, and its parent is black |
| `RbTree.Tree.SecondNode` | src/struct/rbtree.c:379-385 | when the leftmost node goes, the next one is its child if there is one, else its parent |
| `RbTree.Tree.RemoveInner` | src/struct/rbtree.c:325-363 | the in-order successor takes the place of a node with two children; only that node leaves the sequence, and the slot left lacking is the one reported |
| `RbTree.Tree.RemoveOuter` | src/struct/rbtree.c:364-385 | a node with at most one child is unlinked and the cached head is repaired |
| `RbTree.Tree.Remove` | src/struct/rbtree.c:310-395 | the tree stays valid and the in-order sequence loses that node and no other |
| `RbTree.Tree.Next` | src/struct/rbtree.c:404-423 | the next node of the in-order sequence, or null after the last |
| `RbTree.Tree.Find` | src/struct/rbtree.c:425-445 | a node found compares equal; if none is found and the comparator cuts the sequence, no node compares equal |
| `RbTree.Tree.FlushDown` | src/struct/rbtree.c:232-236 | the descent reads no freed node and comes to the next node in order |
| `RbTree.Tree.FlushUp` | src/struct/rbtree.c:237-252 | the climb frees a node and the ancestors it completes, reads none of them after that, and ends |
| `RbTree.Tree.Flush` | src/struct/rbtree.c:222-258 | the callback gets every node once, children before their parent, and the tree is empty |
| `RbTree.Tree.InOrderIsContents` | src/struct/rbtree.c:397-423 | following the links in order yields the sequence the contracts speak of |
| `RbTree.Tree.PathsBalanced` | src/struct/rbtree.c:83-208 | any two ways from the root to a missing child pass the same number of black nodes |
| `Clock.Sub` | src/scheduler/task.c:88 | the difference in microseconds, normalised |
| `Clock.After` | src/scheduler/task.c:411-413 | clock plus milliseconds, exact to the microsecond and normalised |
| `Clock.Delay` | src/scheduler/task.c:88-89 | the microseconds left divided by 1000, rounded down, as a 32-bit int |
| `Clock.ToAhead` | src/scheduler/task.c:88-89 | for a deadline to come this is the number itself iff it is at most INT_MAX, and -1 iff it is 2^32 - 1 modulo 2^32 |
| `Clock.DueIsNoLater` | src/scheduler/task.c:84 | the due test compares microseconds |
| `StableQueue.InsertedIsGood` | src/scheduler/task.c:353-372 | scheduling keeps the queue sorted by deadline, then by time of scheduling, without repeats |
| `StableQueue.ErasedIsGood` | src/scheduler/task.c:381-392 | unscheduling keeps it so |
| `StableQueue.EveryRunIsGood` | src/scheduler/task.c:353-392 | so does every sequence of the two |
| `StableQueue.UntouchedStays` | src/scheduler/task.c:353-392 | whatever is scheduled and unscheduled, the entry of a task that is not touched stays as it is |
| `StableQueue.EntryWasMade` | src/scheduler/task.c:362-366 | every entry has the deadline with which its task was scheduled |
| `StableQueue.EarliestThenFirst` | src/scheduler/task.c:82-87 | the head has the earliest deadline and, among equals, was scheduled first |
| `TaskDriver.DriveServes` | src/scheduler/task.c:74-93 | whatever the resumed tasks schedule, nothing is served early and nothing due stays queued when the loop ends |
| `TaskDriver.ServedWasQueued` | src/scheduler/task.c:82-86 | what is served was queued before, or scheduled with that deadline by a task resumed earlier |
| `TaskDriver.ServedInOrder` | src/scheduler/task.c:82-86 | of two entries queued together, the earlier one (by deadline, then by time of scheduling) is served first unless its task is rescheduled |
| `TaskDriver.NeverEarly` | src/scheduler/task.c:402-419 | an entry made by waiting ms milliseconds at time c is served only when clock >= c + ms |
| `TaskDriver.DriveNormal` | src/scheduler/task.c:74-93 | deadlines stay normalised if only normalised ones are scheduled |
| `TaskDriver.Driver.Create` | src/scheduler/task.c:182-221 | a new task is not queued |
| `TaskDriver.Driver.Start` | src/scheduler/task.c:248-258 | it is queued for at once, behind the tasks already due at once |
| `TaskDriver.Driver.DeadlinesCut` | src/scheduler/task.c:19-31 | although ties do not compare equal, the comparator cuts the queue |
| `TaskDriver.Driver.Dequeue` | src/scheduler/task.c:358-361 | the tree now holds the queue without the task |
| `TaskDriver.Driver.Enqueue` | src/scheduler/task.c:362-371 | the tree now holds the queue with the task behind all that are due no later |
| `TaskDriver.Driver.Schedule` | src/scheduler/task.c:353-373 | the queue is the old one with the task moved to its new deadline; no other task changes |
| `TaskDriver.Driver.Unschedule` | src/scheduler/task.c:381-393 | the queue is the old one without the task; no other task changes |
| `TaskDriver.Driver.Wait` | src/scheduler/task.c:402-419 | the deadline is exactly the clock plus the milliseconds, and normalised if the clock is |
| `TaskDriver.Driver.Serve` | src/scheduler/task.c:82-86 | the head of the queue leaves it and runs |
| `TaskDriver.Driver.Run` | src/scheduler/task.c:74-93 | only due tasks are served, no waiting one before its time; at the end nothing queued is due; the result is -1 for an empty queue, else, for normalised times, the floor of the microseconds to the head over 1000 iff that is at most INT_MAX |
| `ModeBits.NoneRegisteredMeans` | include/rinoo/scheduler/node.h:32-60 | the mask test finds a registered bit iff one is set |
| `SchedNode.Monitor.Remove` | src/scheduler/scheduler.c:170-181 | what rn_scheduler_remove leaves in the node, in each of its outcomes |
| `SchedNode.Monitor.WaitforBegin` | src/scheduler/scheduler.c:99-127 | a waitfor up to its release: at once with an error or a received event, else counted and waiting |
| `SchedNode.Monitor.WaitforEnd` | src/scheduler/scheduler.c:141-161 | a waitfor after its release: cancelled, failed, timed out or served, and no longer counted |
| `SchedNode.Monitor.Wakeup` | src/scheduler/scheduler.c:191-203 | the first error stays, the event is recorded, and the waiting task is resumed if it waits for that |
| `Scheduler.PendingIsSuspended` | src/scheduler/scheduler.c:99-161 | in every reachable state nbpending is the number of suspended waitfors |
| `Scheduler.LoopEndsWhenQuiet` | src/scheduler/scheduler.c:228-270 | without a stop request the loop ends iff no task is queued and none is suspended |
| `Scheduler.ReceivedMeansUnconsumed` | src/scheduler/scheduler.c:108-203 | a received bit is set iff there is a delivery that no waitfor has consumed |
| `Scheduler.SuccessHasOwnDelivery` | src/scheduler/scheduler.c:99-203 | each successful waitfor has its own earlier delivery |
| `Scheduler.PendingReturnsAtOnce` | src/scheduler/scheduler.c:108-111 | a delivery nobody has consumed makes the next waitfor return at once |
| `Scheduler.ErrorIsFinal` | src/scheduler/scheduler.c:103-107 | once a node has an error no waitfor on it succeeds, ever after |
| `Scheduler.FirstTimeoutComesFromQueue` | src/scheduler/scheduler.c:141-161 | on a node with one user, until a first failure a timeout comes only from a run-queue resume |
| `Channel.Chan.Write` | src/scheduler/channel.c:127-145 | the slot holds the buffer and its writer; the task that waited is woken |
| `Channel.Chan.Read` | src/scheduler/channel.c:85-116 | as many bytes as asked for or left are taken from the front; the writer is woken when none is left |
| `Channel.Chan.Get` | src/scheduler/channel.c:42-66 | all that is on offer is taken |
| `Rendezvous.RunKeepsInv` | src/scheduler/channel.c:42-145 | in every interleaving, who is blocked agrees with the slot and every byte is accounted for |
| `Rendezvous.ReadsArePrefixOfWrites` | src/scheduler/channel.c:42-145 | the bytes read and those still on offer are the bytes written |
| `Rendezvous.WriteReturnsWhenConsumed` | src/scheduler/channel.c:127-145 | a write returns only when all its bytes are read |
| `Rendezvous.ReadNeverFails` | src/scheduler/channel.c:94-100 | a read that was suspended finds a buffer |
| `Rendezvous.NoDeadlock` | src/scheduler/channel.c:42-145 | the two are never both blocked, and nothing stops before one has finished |
| `HttpTables.ScanIsDelta` | src/proto/http/http_request_parse.c:17-193 | in every state, for every character, the tables of both parsers lead where the grammar says, with its actions |
| `HttpTables.ResponseScan` | src/proto/http/http_response_parse.c:17-124 | the response tables alone |
| `HttpTables.RowsSorted` | src/proto/http/http_request_parse.c:27-105 | keys and ranges stand in increasing order in every row |
| `HttpTables.Lookup` | src/proto/http/http_request_parse.c:260-303 | the two binary searches find what a scan of the row finds |
| `HttpHeaders.CompareZero` | src/memory/buffer.c:328-339 | the comparison is 0 iff the texts are equal |
| `HttpHeaders.CompareFlips` | src/memory/buffer.c:328-339 | it is antisymmetric |
| `HttpHeaders.CompareChains` | src/memory/buffer.c:328-339 | and transitive |
| `HttpHeaders.OneListing` | src/proto/http/http_header.c:186-213 | the walk over the headers depends only on the map they form |
| `HttpHeaders.HeaderSet.Flush` | src/proto/http/http_header.c:61-66 | no header and no length is left |
| `HttpHeaders.HeaderSet.Get` | src/proto/http/http_header.c:163-177 | the node with this key, or null iff there is none |
| `HttpHeaders.HeaderSet.SetData` | src/proto/http/http_header.c:78-118 | the map is updated at the key, whether it was there or not; an empty value is refused |
| `HttpHeaders.HeaderSet.Remove` | src/proto/http/http_header.c:140-153 | the map loses the key and nothing else |
| `HttpHeaders.HeaderSet.Print` | src/proto/http/http_response.c:243-251 | the lines of all headers in order of key |
| `HttpParse.LineRun` | src/proto/http/http_request_parse.rl:24-32 | a printed header line is read back as its header, also with bare carriage returns and continuation lines in the value |
| `HttpParse.HeadersRun` | src/proto/http/http_request_parse.rl:59-66 | a printed list of headers is read back as the map it stands for |
| `HttpRoundTrip.RequestLineRun` | src/proto/http/http_request_parse.rl:47-62 | a printed request line is read back, also with blanks in the URI |
| `HttpRoundTrip.StatusLineRun` | src/proto/http/http_response_parse.rl:50-59 | a printed status line is read back |
| `HttpRoundTrip.RequestRoundTrip` | src/proto/http/http_request.c:83-134 | parsing a printed request, whatever follows, gives back method, version, URI, headers, Content-Length and the printed length |
| `HttpRoundTrip.ResponseRoundTrip` | src/proto/http/http_response.c:223-254 | parsing a prepared response, whatever follows, gives back version, code, message, headers, Content-Length and the printed length |
| `HttpPrint.LengthComesBack` | src/proto/http/http_request_parse.rl:33-44 | a printed length is read back iff it fits an int or is the greatest size_t |
| `HttpPrint.LengthRecovered` | src/proto/http/http_response.c:198-210 | the same for the length found among the headers |
| `HttpPrint.DefaultsListed` | src/proto/http/http_response.c:198-210 | the default headers, in the order they are printed |
| `HttpStream.ParseGoesOn` | src/proto/http/http_request_parse.c:220-451 | a run over a longer buffer goes on where the run over its first part ended, and writes at least what that one wrote |
| `HttpStream.Replay` | src/proto/http/http_request.c:26-27 | writing again over an earlier run's fields leaves what writing once would |
| `HttpStream.ChunksDoNotMatter` | src/proto/http/http_request.c:25-42 | however the stream is cut into reads, fields and verdict are those of one parse of it |
| `HttpContent.LengthIsAnnounced` | src/proto/http/http_request_parse.rl:33-44 | in every accepted head the Content-Length is the number on the wire in the last content-length header that starts with a digit, provided some such header is all digits up to a carriage return, through atoi and size_t |
| `HttpContent.ContentIsNext` | src/proto/http/http_request.c:28-34 | the content is the stretch after the head; it is inside the buffer iff the 32 bits left of the announced number are not negative or the sum does not wrap; it is so and has the announced length iff the number is at most INT_MAX |
| `HttpContent.WrappedLength` | src/proto/http/http_request.c:28-33 | a request announcing 4294967295 bytes is received at once with a content of SIZE_MAX bytes |
| `HttpConnection.Message.EndHeader` | src/proto/http/http_request_parse.c:346-357 | the header tree now holds the header between the marks |
| `HttpConnection.Message.End` | src/proto/http/http_request_parse.c:358-372 | the fields between the marks are set |
| `HttpConnection.Message.Turn` | src/proto/http/http_request_parse.c:256-424 | one turn of the loop is one step of the automaton with its actions |
| `HttpConnection.Message.ParseBuffer` | src/proto/http/http_request_parse.c:220-451 | the parser fills in the structure as the fold of steps over the buffer says |
| `HttpConnection.Message.Prepare` | src/proto/http/http_response.c:223-254 | the buffer holds the status line, the completed headers in order of key and the blank line; a buffer in use is refused |
| `HttpConnection.Message.PrepareRequest` | src/proto/http/http_request.c:72-134 | the buffer holds the request line, the headers with a length and the blank line; an unknown method is refused |
| `HttpConnection.Message.Receive` | src/proto/http/http_request.c:25-42 | the read loop up to the first verdict |
| `HttpConnection.Message.ReadContent` | src/proto/http/http_request.c:29-33 | reads on until the content is there, and succeeds iff the stream has it |
| `HttpConnection.Message.ReceiveAll` | src/proto/http/http_response.c:25-40 | head and content, as for a stream in one piece |
| `HttpConnection.Http.Reset` | src/proto/http/http.c:54-66 | both directions are empty again |
| `HttpConnection.Http.GetResponse` | src/proto/http/http_response.c:20-43 | succeeds iff the stream holds a whole response, and then its fields and content do not depend on the reads |
| `HttpConnection.Http.GetRequest` | src/proto/http/http_request.c:20-44 | the same for requests, after answering and dropping the heads that do not parse |
| `HttpConnection.SettlesAtOnce` | src/proto/http/http_request.c:35-41 | nothing is dropped iff one parse of the whole stream does not reject it |
| `HttpGrammar.HeadStep` | src/proto/http/http_request_parse.rl:59-66 | in the header lines, a text may follow iff the automaton takes its first character and the rest may follow there |
| `HttpGrammar.UriStep` | src/proto/http/http_request_parse.rl:56-61 | the same in the URI, where any blank may be the one before the protocol: the states remember how much of the line's end has been seen |
| `HttpGrammar.VerbStep` | src/proto/http/http_request_parse.rl:48-61 | the same in the method, in either case |
| `HttpGrammar.RestStep` | src/proto/http/http_request_parse.c:220-451 | the same in every state of both automata |
| `HttpGrammar.LinesAreRest` | src/proto/http/http_response_parse.rl:55-61 | what the header lines' automaton lets follow is any number of headers, each a key, a colon, a blank, a value and its continuation lines, and then an empty line |
| `HttpGrammar.RestIsGrammar` | src/proto/http/http_response_parse.rl:49-62 | the language of the first state is the grammar |
| `HttpGrammar.AcceptsGrammar` | src/proto/http/http_request_parse.rl:47-66 | a parser reports a head of n bytes iff the first n bytes are one by the grammar |
| `HttpGrammar.WaitsForGrammar` | src/proto/http/http_request_parse.rl:47-66 | a parser asks for more iff some longer text with what it has at its start is a head |
| `HttpGrammar.RejectsOthers` | src/proto/http/http_request_parse.rl:45-66 | a parser rejects iff no start of the buffer is a head and no longer text is |
| `HttpLines.ParseKnows` | src/proto/http/http_request_parse.c:256-424 | in every run the states of the header lines tell exactly where a line starts, which key is being spelled and where a content-length value begins, and the marks enclose what they should |
| `HttpLines.UriIsPlain` | src/proto/http/http_request_parse.rl:56 | any URI reported is ASCII and has no line break |
| `HttpLines.MsgIsPlain` | src/proto/http/http_response_parse.rl:51 | so is any message |
| `HttpLines.UriComesBack` | src/proto/http/http_request.c:113-122 | a printed URI is read back iff it is ASCII without a line break |
| `HttpLines.MsgComesBack` | src/proto/http/http_response.c:223-242 | a printed message is read back iff it is ASCII without a line break |
| `HttpValues.ParseFits` | src/proto/http/http_request_parse.rl:60 | in the headers of a head without NUL every line break in a value is continued |
| `HttpValues.EmptyLineDecides` | src/proto/http/http_request_parse.rl:61-66 | a text that ends with an empty line is accepted or rejected |
| `HttpValues.RequestHeadersComeBack` | src/proto/http/http_request.c:124-134 | the headers of a printed request come back iff every line break in their values is continued |
| `HttpValues.ResponseHeadersComeBack` | src/proto/http/http_response.c:243-252 | the same for a response |
| `HttpSession.HeadIsFound` | src/proto/http/http_response.c:20-40 | however a stream is cut into reads, a head of n bytes is found iff its first n bytes are one |
| `HttpSession.NothingDropped` | src/proto/http/http_request.c:25-42 | a server drops nothing iff the stream starts with a head or a head starts with the stream |
| `HttpConnection.Http.SendResponse` | src/proto/http/http_response.c:264-283 | head and body go out, as far as the peer takes them; it succeeds iff the peer takes them all |
| `HttpConnection.Http.SendRequest` | src/proto/http/http_request.c:72-145 | the same for a request and its two writes |
| `HttpConnection.Http.Reject` | src/proto/http/http_request.c:35-41 | a 400 with default headers goes out and, if all of it does, the structure is reset |
| `DnsName.NameFits` | src/proto/dns/dns_parse.c:62-73 | a name that fits is stored as its labels with dots between them, NUL-terminated |
| `DnsName.BackwardEnds` | src/proto/dns/dns_parse.c:50-62 | a name whose pointers all go back before their segment ends |
| `DnsName.EndsSoon` | src/proto/dns/dns_parse.c:50-62 | a name ends iff it does after at most as many pointers as there are places to point to |
| `DnsName.CircleNeverEnds` | src/proto/dns/dns_parse.c:50-62 | a name that leads to a pointer to its own start, or to itself, never ends |
| `DnsName.NameEndInside` | src/proto/dns/dns_parse.c:36-77 | a name that reads well ends inside the packet |
| `DnsParse.Cursor.Skip` | include/rinoo/memory/buffer_iterator.h:55-62 | moves only if it stays inside |
| `DnsParse.Cursor.Short` | include/rinoo/memory/buffer_iterator.h:97-104 | two bytes in network order, if they are there |
| `DnsParse.Cursor.Word` | include/rinoo/memory/buffer_iterator.h:106-122 | four bytes in network order, if they are there |
| `DnsParse.Buffer.Add` | src/memory/buffer.c:209-217 | all or nothing within the room given; broken iff that passes the array |
| `DnsParse.Buffer.AddZero` | src/memory/buffer.c:240-246 | a NUL, unless there is one |
| `DnsParse.GetName` | src/proto/dns/dns_parse.c:36-77 | on every name that ends it returns; unless what it stores passes the array, it succeeds iff the name is well formed, stores the labels of the expanded name, and leaves the cursor after the first zero byte or pointer |
| `DnsParse.WithinMeans` | src/proto/dns/dns_parse.c:202-204 | the name of a PTR record stays in its array iff it is stored as with the size of the array |
| `DnsParse.WithinByLength` | src/proto/dns/dns_parse.c:202-204 | the same as a condition on the lengths of its labels and the NUL |
| `DnsParse.WithinByName` | src/proto/dns/dns_parse.c:202-204 | a name that fits the room claimed stays in the array iff it fits the array |
| `DnsParse.GetRdata` | src/proto/dns/dns_parse.c:79-164 | unless a PTR name passes its array, it succeeds iff the data is well formed and takes exactly rdlength bytes, and reads what it says |
| `DnsParse.GetRecord` | src/proto/dns/dns_parse.c:180-229 | under the same condition it succeeds iff the record is well formed; then the cursor has moved by the name, ten bytes and rdlength, inside the packet, and the fields are those on the wire |
| `DnsParse.GetQuestion` | src/proto/dns/dns_parse.c:166-178 | succeeds iff a name and four bytes are there, and reads them |
| `DnsQuery.PutName` | src/proto/dns/dns.c:63-74 | the labels go out, each after its length, then a zero byte |
| `DnsQuery.Query` | src/proto/dns/dns.c:39-81 | the whole packet, also when not all of it fits |
| `DnsQuery.WireReads` | src/proto/dns/dns_parse.c:36-77 | the wire form of labels reads as those before the first empty one |
| `DnsQuery.CleanComesBack` | src/proto/dns/dns.c:63-74 | splitting and joining give the host back iff it is clean |
| `DnsQuery.QueryAndRead` | src/proto/dns/dns.c:39-81 | reading the packet of a query back succeeds; the name is the host with a NUL iff the host is clean, and then type and class are those asked for |
| `DnsQuery.LoopEnds` | src/proto/dns/dns.c:63-72 | the loop comes to the end of the host iff no label has more than 127 bytes |
| `DnsQuery.PtrOverrun` | src/proto/dns/dns_parse.c:202-204 | a well formed PTR record of 289 bytes whose name passes its array |
| `Murmur3.Fmix32Inverse` | src/global/murmurhash3.c:23-32 | fmix32 is a permutation |
| `Murmur3.Fmix64Inverse` | src/global/murmurhash3.c:34-43 | fmix64 is a permutation |
| `MurmurSteps.TurnInverses32` | src/global/murmurhash3.c:13-16 | each rotation by a constant is undone by another |
| `MurmurSteps.TurnInverses64` | src/global/murmurhash3.c:18-21 | the same for 64 bits |
| `Murmur3.X86_32` | src/global/murmurhash3.c:45-92 | the block loop and the tail compute the chain of rounds |
| `Murmur3.X64_128` | src/global/murmurhash3.c:244-342 | the same with a state of two words |
| `Murmur3.Hash32Differs` | src/global/murmurhash3.c:45-92 | keys of one length that differ in one block only, or in the tail only, have different hashes |
| `Murmur3.Hash128Differs` | src/global/murmurhash3.c:244-342 | the same for the 128-bit hash |
| `BlockHash.OneBlock` | src/global/murmurhash3.c:58-69 | if rounds lose nothing, inputs that differ in one block leave different states |
| `Base64.Emit` | src/memory/buffer.c:665-670 | one turn puts out what its byte completes |
| `Base64.StepOut` | src/memory/buffer.c:661-671 | after each byte all characters are out but the last, which is held back until more bits or the end |
| `Base64.Stream` | src/memory/buffer.c:651-676 | the characters of all groups, padded to a multiple of four |
| `Base64.StreamIsEncode` | src/memory/buffer.c:651-676 | into an empty buffer this is the standard encoding |
| `Base64.StreamAfter` | src/memory/buffer.c:672-674 | after other characters it is iff their number is a multiple of four |
| `Base64.DecodeEncode` | src/memory/buffer.c:651-676 | the standard decoding gives the source back |
| `Base64.EncodeDecode` | src/memory/buffer.c:651-676 | and it decodes nothing but encodings |
| `Base64.EncodeLength` | src/memory/buffer.c:651-676 | four characters for every three bytes begun |
| `Writev.Advance` | src/net/socket_class_tcp.c:308-317 | the vector loses from its front exactly what was written, zero-length entries included |
| `Writev.WriteAll` | src/net/socket_class_tcp.c:285-320 | what the kernel has taken followed by what the vector holds is always the concatenation |
| `Writev.Writev` | src/net/socket_class_tcp.c:267-321 | the result for every sequence of kernel results; success means exactly the concatenation was sent |

## Left out

- Kernel and library calls (epoll, sockets, memory, pthreads, signals): their results are inputs; memory never runs out.
- Context switches: a resume or release is one step; tasks whose parent is not the main context are left out.
- rn_task_driver_stop, rn_task_pause, rn_task_destroy: the loop of rn_task_driver_run without the due test, two schedulings around a release, and an unscheduling.
- waitfor called from the main context: it returns without clearing the received bit, so event matching is about coroutines.
- rn_channel_put and channels with several writers or readers, timeouts or a stop.
- The wording of status messages and of the Server header: `Wording` stands for the texts compiled in.
- Message texts and URIs that a caller sets: the structure keeps stretches of its own buffer only; a text given for sending is used and not kept.
- DNS names that do not end: rn_dns_name_get does not return on them; `Ends` is required of the callers.
- What a PTR record does to the structure behind its array when its name passes the array.
- rn_dns_header_get, rn_dns_reply_get and the sending of queries: a fixed sequence of the getters, and three loops over records.
- Host names with a label of more than 127 bytes: the loop does not come to its end on them (`LoopEnds`); what it writes meanwhile is left out.
- HttpRoundTrip.RequestRoundTrip: a Content-Length is promised for values of digits only; `LengthIsAnnounced` says what is read in all other cases.
- The 128-bit hash for 32-bit machines: the same argument with four words.
- Lists, vectors, hash tables, file system, routing, TLS, UDP: not needed by the properties above.
