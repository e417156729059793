# A verified model of pgrouter

pgrouter is a router between PostgreSQL clients and a master with its read slaves. Each client is served by a
worker thread that sends requests to a read slave, replays a request to the master when the slave refuses it, and
keeps transactions on the master. A watcher thread probes the backends, a monitor thread reports on them, and
clients are let in with the md5 password exchange against a file of users, the authdb.

The project models the four parts in which most can go wrong, in the form the C code has: classes whose methods
update cursors, buffers and contexts in place, loops where the code loops, and a step machine for the threads.

| file | models |
|---|---|
| `Wire.dfy`, `Streams.dfy` | message lengths and types as the macros read them; descriptors with short reads, short writes and failures |
| `Buffer.dfy`, `Mbuf.dfy`, `ErrorScan.dfy`, `Replay.dfy` | what the operations of the message buffer do, as functions; the buffer with its cursors and its temporary file, which does that; any sequence of its operations |
| `Trace.dfy`, `Runs.dfy`, `Turns.dfy`, `Session.dfy` | one client session: a machine with one step for each message; what holds of every run of it; what whole turns amount to; the loops on buffers and descriptors, which make such runs |
| `Md5Spec.dfy`, `Md5.dfy`, `Md5Context.dfy`, `Md5Answer.dfy` | RFC 1321, the unrolled compression and the incremental digest; an answer that is known beforehand |
| `Selection.dfy`, `Shared.dfy` | the weighted choice of a reader; watcher, workers, monitor and reload interleaved over the shared table |
| `AuthText.dfy`, `Authdb.dfy` | the authdb format, its lexer, parser, lookup and printer |
| `Startup.dfy`, `Admission.dfy`, `Conn.dfy` | startup and password messages; letting a client in as a machine, and the loop that makes its runs |

`dafny verify dfyconfig.toml` checks all of it.

How the outside world enters: a descriptor is the stream of octets still to be read or written so far. How short the
reads of it are is an arbitrary function of what is still to come, so that every sequence of short reads is covered and
a run is determined by it; how short the writes are is arbitrary. Each descriptor has some failures in store, so "no
failure" is "that number did not change". The random value of the selection, the findings of a probe, the contents of a
reload and the interleaving of the threads are arbitrary. A thread's step is one lock operation together with the work
on shared data that leads up to it; a reader/writer lock is the set of those who hold it.

The two loops over messages, of the session and of the admission of a client, are proved against machines: the methods
keep the run they have made and ensure that all their state is exactly where the machine is after it. What is promised
of a session is then proved of all runs of the machine.

## Where the code departs from its intent

The model follows the code. Where that breaks what the code is for, a row of the table has the exact condition; where
the condition does not show it, a lemma gives an input.

- The length macro loses the top octet of a length (src/msg.c:26): frames are measured right exactly below 2^24 octets.
- `writen` does not advance its pointer (src/msg.c:49-60): what the backends get of requests and logs is promised for
  runs in which no `writen` call needed a second write; what the client gets, the log and the routing are not touched.
- `send` keeps only the result of its last write, and reports the end of the input in mid-frame as success, as
  `discard` does (src/msg.c:193, 205, 340).
- The log is kept in the buffer until a message is longer than what is buffered of it. When it leaves less than five
  octets of room, nothing more is read and the session ends (src/msg.c:142).
- A drain never stops where less than a header of another message is left, or an untyped message of length zero stands
  (src/msg.c:356-376): with the end of the input behind one octet it goes on for ever.
- The replay log outlives the request it was kept for: a failover replays everything sent since the last one, to the
  writer that may have executed it already, and drops what the client has pipelined (src/worker.c:218-219).
- A refusal is noticed only if it is buffered through its code when its message is looked at, and is passed on to the
  client if not (src/msg.c:394-405).
- What has been read behind a refusal is kept for the writer's reply and passed on before it (src/worker.c:211-219).
- A BEGIN is noticed only if ten octets of its message are buffered, a COMMIT only if eleven are: reading goes on only
  until there are five (src/msg.c:142, src/worker.c:172, 179). A text that does not end within its message is
  compared on into the next one.
- A BEGIN moves the requests to the master but not the replies (src/worker.c:175-176).
- The farewell of a client goes to the selected backend twice (src/worker.c:187-194).
- The copy sub-protocol ends at 'c' or 'F'; the protocol's CopyFail is 'f' (src/worker.c:247).
- Random value zero selects the first backend whatever it is (src/worker.c:99).
- A startup message of 16 octets is taken for a CancelRequest (src/msg.c:424).
- `extract_params` reads whatever is in the buffer, stale octets included, when the message has not arrived completely
  (src/conn.c:123): a user whose name is cut short is taken for another one.
- A reply of `pgr_conn_accept` is put behind what the client has pipelined, which is then passed back to it
  (src/conn.c:382-386). The ErrorResponse takes an octet of the client's along (src/conn.c:85-90).
- The printer of the authdb does not escape backslashes (src/authdb.c:643-669), and its parser reports no errors
  (src/authdb.c:423-428). When the file does not end with a newline, its last word loses an octet (src/authdb.c:249).

## Model

| member | source | states |
|---|---|---|
| `Wire.Htonl` | src/conn.c:30-31 | the four octets of a length field denote the length again, big-endian |
| `Wire.TypedSizeExact` | src/msg.c:26-47 | a typed protocol message is measured correctly if and only if its length field fits in 24 bits: the top octet of the field is lost |
| `Wire.UntypedSizeExact` | src/msg.c:26-47 | the same for untyped messages |
| `Wire.SslRequestIff` | src/msg.c:411-431 | exactly the octets 00 00 00 08 04 d2 16 2f in front, or a message of type octet 2, are taken for an SSLRequest |
| `Wire.CancelIff` | src/msg.c:424-426 | any untyped message of length 16, or one of type octet 3, is taken for a CancelRequest |
| `Wire.StartupIff` | src/msg.c:427-429 | any other untyped message of which five octets are there, but for the lengths 4 to 8, or one of type octet 1, is taken for a startup message |
| `Wire.TypeOctet` | src/msg.c:433 | the type of any other message is its first octet, as a signed one |
| `Streams.SendN` | src/net.c:312-328 | success if and only if no write failed, then exactly the data went out; in any case only a prefix of it, under every pattern of short writes |
| `Streams.Writen` | src/msg.c:49-60 | what goes out is the echo of the front of the data for every write it took, whatever happens; success if and only if the writes took as many octets as there are; all of the data when one write did all the work |
| `Streams.WritenExactIff` | src/msg.c:49-60 | for writes of given counts, the data goes out unchanged for every data of that length if and only if at most one write did all the work: the pointer is never advanced |
| `ErrorScan.ScanFields` | src/msg.c:394-407 | the loops over the buffered fields decide the scan that the lemmas are about |
| `ErrorScan.ScanFindsFirstCode` | src/msg.c:382-408 | for a fully buffered error printed from any NUL-free fields, a five-octet code is reported if and only if there is a code field and the first one starts with it |
| `ErrorScan.ScanCutIff` | src/msg.c:394-407 | on the front of a printed error the walk finds the code if and only if it does on all of it and the first code field is buffered through the octet behind the code |
| `ErrorScan.ScanPrefix` | src/msg.c:394-407 | a code found in the part that is buffered is the one found in the whole stream |
| `Mbuf.MBuf.constructor` | src/msg.c:62-84 | a new buffer is empty, has no log and no cache, and has the length asked for |
| `Mbuf.MBuf.Reset` | src/msg.c:98-105 | log, unsent octets and cache are all dropped |
| `Mbuf.MBuf.Cat` | src/msg.c:124-133 | success exactly if the data fits; then it stands behind what was unsent; otherwise nothing changes; the log is untouched |
| `Buffer.OneMessageGone` | src/msg.c:159-351 | sending and taking off each leave exactly what follows the first message |
| `Buffer.DrainsThrough` | src/msg.c:356-376 | on any stream of whole messages that are not of the type up to one that is, the drain stops exactly behind that one, however short the reads are |
| `Buffer.DrainStops` | src/msg.c:356-376 | once a drain has stopped, watching it longer makes no difference |
| `Buffer.DrainEnds` | src/msg.c:356-376 | on every stream but one with an SSLRequest, however short the reads are: the drain stops if and only if the walk over the messages of the stream has an end, then with the result and the rest that the walk ends with, and within as many messages as there are octets |
| `Buffer.DrainStopsIff` | src/msg.c:356-376 | so there is a number of rounds in which it stops if and only if the walk has an end: it has none exactly where less than a header of a message with another type is left, or where an untyped message says that it is nothing |
| `Buffer.CutHeaderStalls` | src/msg.c:356-376 | such a stream: one octet of another message and the end of the input |
| `Buffer.CutBodyEnds` | src/msg.c:361-363 | a message that is cut behind its header does end the drain, with -1 |
| `Mbuf.MBuf.Recv` | src/msg.c:140-152 | nothing of the stream is lost or made up; without a failure what is buffered is determined by the stream, the room and the pace of the reads, and a header is there if and only if the stream holds five octets and there is room for them |
| `Mbuf.MBuf.Send` | src/msg.c:159-229 | for a message of any size through a buffer of any length, under every pattern of short reads: it is appended to the log and taken off the stream whatever the output does; it is what the writes had to put out, and for a whole message success is that the last of them put out as much as it had; without failures, when no `writen` call was short, exactly it goes out |
| `Mbuf.MBuf.SendRest` | src/msg.c:174-228 | loop of the oversized send: the log grows by exactly what the stream loses, through the opening of the cache and every refill |
| `Mbuf.MBuf.WarmCache` | src/msg.c:175-191 | opening the cache keeps the log and the unsent octets and makes room by setting the start to zero |
| `Mbuf.MBuf.Resend` | src/msg.c:233-269 | success exactly if nothing failed; then the buffer is as before, so that it can be repeated, and exactly the whole log went out when no `writen` call was short |
| `Mbuf.MBuf.ResendCache` | src/msg.c:238-256 | the cache goes out whole and in order, in blocks of any length the reads return, when no `writen` call was short |
| `Mbuf.MBuf.Relay` | src/msg.c:275-319 | exactly one frame moves from the stream to the output under every pattern of short reads and writes; it is consumed even when the output fails, and what went out is then a prefix of it |
| `Mbuf.MBuf.Discard` | src/msg.c:324-351 | exactly the first frame, or what there is of it, is taken off the stream; its end in mid-frame is reported as success |
| `Mbuf.MBuf.IsError` | src/msg.c:382-408 | 0 exactly for an error message, with the code when one is asked for |
| `Mbuf.MBuf.Drain` | src/msg.c:356-376 | without a failure it does what the drain of the buffer model does, result included, so that the rows on that say when it stops; in any case it keeps the log and loses nothing but a front of the stream |
| `Replay.LogIsSent` | src/msg.c:98-376 | over any sequence of operations with any arguments, on a buffer with an empty log: the log is the messages sent since the last reset, each as it stood at the front of the stream when it was sent |
| `Replay.ResendPutsOutSent` | src/msg.c:233-269 | after any such sequence a resend puts out exactly those messages, and leaves everything as it is, so that it can be repeated |
| `Replay.Perform` | src/msg.c:98-376 | any sequence of operations on the buffer object, as long as no descriptor fails, leaves exactly what those functions say, and puts out exactly what they say when no `writen` call was short |
| `Replay.Step` | src/msg.c:98-376 | the same for each operation |
| `Trace.InTxnIffOpen` | src/worker.c:151-183 | whatever fails, the flag is set if and only if some request opened a transaction that no later one committed, and then the writer is selected |
| `Trace.RequestNoticesIff` | src/worker.c:170-183 | a request whose octets say BEGIN is noticed if and only if ten of them were buffered when it was looked at, one that says COMMIT if and only if eleven were |
| `Trace.MessageNoticesIff` | src/worker.c:170-183 | when the request is a whole message and its text ends within it, that is so of what its own message says |
| `Trace.BeginIs` | src/worker.c:172 | a request says BEGIN if and only if it is a query whose text starts with these five letters, each in either case |
| `Trace.CommitIs` | src/worker.c:179 | the same for the six letters of COMMIT |
| `Trace.BeginGoesToWriterIff` | src/worker.c:170-190 | a BEGIN goes to the writer if and only if it was buffered to its word or the writer was selected anyway |
| `Trace.TransactionsGoToWriter` | src/worker.c:151-247 | in every run, whatever fails, everything from a BEGIN that was noticed through the first request that says COMMIT goes to the writer, and no failover happens there |
| `Runs.BefdOnlyMovesToWriter` | src/worker.c:151-221 | within a request and its reply the selected backend moves from the reader to the writer at most |
| `Runs.OneFailoverPerTurn` | src/worker.c:210-221 | a request is replayed at most once |
| `Runs.WriterSelectedIff` | src/worker.c:151-221 | the writer is selected exactly if, since the turn began, a transaction was open, one began or the reader refused |
| `Runs.RepliesFollowRequestsIff` | src/worker.c:157-176 | replies are read from the backend that gets the requests, except in exactly the turns in which a BEGIN moved the requests away from the reader |
| `Runs.FirstBegin` | src/worker.c:152-190 | a session whose client says BEGIN and nothing else: if less than ten octets come with the first read, the reader gets it; if not, the writer gets it and the reply is awaited from the reader |
| `Runs.LogIsRequests` | src/msg.c:159-229 | the log is what was requested since the last failover, over all turns, however short the writes are |
| `Runs.FailoverResends` | src/worker.c:210-220 | a failover sends the writer everything logged, which is the request of the turn alone if and only if nothing was logged before the turn |
| `Runs.AnsweredRequestsReplayed` | src/worker.c:218-219 | a request that went to the writer before is sent to it again by the next failover |
| `Runs.ClientAccount` | src/worker.c:160-247 | every octet of the client's is accounted for in order: passed on, dropped by a failover, or still to come |
| `Runs.AllForwardedIff` | src/worker.c:219 | everything the session took from the client was passed on, in order, if and only if no failover found pipelined octets in the buffer |
| `Runs.BackendsGetWhatIsPut` | src/worker.c:185-247 | each backend gets exactly the requests and copy data routed to it, the logs that are sent again and the farewell, in order |
| `Runs.ForwardedIsWoven` | src/worker.c:185-247 | without a failover, until the farewell, what was passed on is woven from what was put out to each backend: every octet to one of them, each in its order |
| `Runs.ClientReachesBackends` | src/worker.c:160-247 | so the client's stream is woven from what each output has got, followed by what is still to come |
| `Runs.RepliesInOrder` | src/worker.c:199-258 | as long as replies are read from one backend, over any number of turns, every octet of that backend is accounted for in order: passed on, drained or still to come |
| `Runs.ClientGetsReplies` | src/worker.c:199-258 | over any stretch of any run, from whichever backend: the client gets exactly the replies that are passed on |
| `Runs.DrainedIff` | src/worker.c:210-212 | a session that drains a refusal goes on if the walk over the reader's messages has an end, with what is left behind that, and otherwise drains for ever |
| `Runs.SwitchKeepsStreams` | src/worker.c:157-158 | turning to another backend loses nothing of either, and what is left in the buffer of the one is taken for the other's |
| `Runs.RunFollows` | src/worker.c:151-265 | the run of a session is determined by what the client and the backends send and the pace at which it is read |
| `Turns.TurnAnswered` | src/worker.c:151-258 | a request of whole messages, of any size whose headers find room, in an open transaction or not, that the backend the turn begins with answers, the reader without a refusal: that backend gets exactly the request, the client exactly the reply, the other backend nothing |
| `Turns.RoomSuffices` | src/msg.c:140-229 | the headers of a request find room when the log leaves enough for all messages but the last and a header, or when the temporary file has the log: so a single query of any size does with an empty log |
| `Turns.RequestsRunOut` | src/msg.c:140-152 | when a header of a request finds none, the session ends with exactly the messages before it sent |
| `Turns.TurnFailsOver` | src/worker.c:151-220 | a request that the reader refuses, whatever the reader sends behind its refusal: the writer gets exactly what the reader got, behind all that was logged before, so with an empty log both get the same octets; the client gets nothing of the refusal; what was read behind it stays in the buffer, and the rest with the reader |
| `Turns.TurnReplayed` | src/worker.c:151-258 | with nothing read behind the refusal, the client gets exactly the writer's reply, and what the reader sends later is still to come |
| `Turns.ReplayedExactlyIff` | src/worker.c:199-258 | within that turn the client gets exactly the writer's reply if and only if nothing had been read behind the refusal when it was drained |
| `Turns.NoticeComesFirst` | src/worker.c:210-220 | a session in which something had: the reader's refusal and the front of a notice come with one read |
| `Turns.RefusedSession` | src/worker.c:151-258 | a session that meets this: one query, refused by the reader and answered by the writer, for every pace that reads the refusal whole; what is read behind the refusal is exactly what came with the first read |
| `Turns.RequestsGo` | src/worker.c:160-197 | a request of whole messages whose headers find room goes to the selected backend, exactly and all of it, and is logged |
| `Turns.ReplyPasses` | src/worker.c:199-258 | a reply of whole messages without CopyInResponse and, from the reader, without a refusal reaches the client through its ReadyForQuery, exactly; other errors of the reader are passed on like anything else |
| `Turns.RefusalSeenIff` | src/worker.c:210 | with all of an error buffered, it is taken for a refusal if and only if its first code starts with 25006, whatever follows it in the buffer |
| `Turns.CutRefusalSeenIff` | src/worker.c:210 | with only some of it buffered, it is taken for a refusal if and only if besides that its first code field is buffered through the octet behind the code |
| `Turns.CopyPasses` | src/worker.c:232-247 | over whole messages of the client's exactly those through the first of type 'c' or 'F' go to the backend, unlogged, and the copy ends behind that one; as long as there is none it goes on |
| `Turns.CopyStarts` | src/worker.c:223-250 | a whole message of type 'G' from the backend starts that: the client gets exactly it, the selected backend exactly the client's messages through the first of type 'c' or 'F', unlogged, and the rest of the reply is awaited |
| `Turns.TurnCopies` | src/worker.c:151-258 | a whole turn with a copy: the backend it begins with gets exactly the request and the data, the client exactly the CopyInResponse and the reply behind it, the other backend nothing |
| `Turns.TurnCopiesToWriter` | src/worker.c:151-258 | a copy that the reader refuses, by a client that waits for the CopyInResponse: both backends get the request, only the writer the data, and the client exactly the writer's messages |
| `Turns.CopyFindsRoom` | src/msg.c:140-229 | the first header of the copy finds room when the log leaves it behind the request, or when the temporary file has the log |
| `Turns.CopyFailGoesOn` | src/worker.c:247 | after a CopyFail, of type 'f', the client's next request is taken for data of the copy |
| `Turns.ClientLeaves` | src/worker.c:192-196 | a message of type 'X' goes to the selected backend like any other, and then the octets 58 00 00 00 04 to both; the session ends |
| `Turns.WholeSession` | src/worker.c:151-265 | a session octet by octet: one query, refused by the reader and answered by the writer, and the client leaves; the reader is told goodbye twice |
| `Turns.LongMessageFillsLog` | src/msg.c:140-152 | from the start of a session: a first message that was read completely leaves room for the next header if and only if it has less than 16380 octets |
| `Turns.FullLogEndsSession` | src/msg.c:140-152 | when the log leaves no room for a header, the session ends, whatever the client still has to say |
| `Turns.EveryRunPasses` | src/worker.c:151-265 | where one run of the machine leads, every other one that is watched for so long passes through |
| `Session.Session.HandleClient` | src/worker.c:151-265 | the loop on the buffers and descriptors makes a run of the machine, and every buffer, variable and descriptor is exactly where that run leads; it ends with the machine or goes on for as long as it is watched; unless a descriptor failed every act of the run is done as it should, but for what `writen` puts out to a backend when it writes short |
| `Session.Session.StartTurn` | src/worker.c:152-158 | one turn of the machine: unless a transaction is open both buffers go back to the reader |
| `Session.Session.SendRequest` | src/worker.c:167-190 | with a message buffered one request of the machine, with the view that decides on BEGIN and COMMIT and the backend these select; without one the end of the session |
| `Session.Session.ForwardRequest` | src/worker.c:160-197 | the client's side ends behind a message that asks for an answer or with the session, having made acts of the machine only |
| `Session.Session.RelayReply` | src/worker.c:223-256 | one message of a reply becomes one act of the machine, and the session goes on as its type says |
| `Session.Session.RelayCopy` | src/worker.c:232-247 | the same for the copy sub-protocol |
| `Session.Session.CopyIn` | src/worker.c:232-249 | the copy sub-protocol ends behind 'c' or 'F', at the point where the rest of the reply is awaited, or with the session |
| `Session.Session.DrainReader` | src/worker.c:210-212 | a refusal that is buffered is drained, and nothing else happens |
| `Session.Session.ResendToWriter` | src/worker.c:214-220 | both sides are moved to the writer, the log goes to it, and the buffer is emptied with the log |
| `Session.Session.ReplyLoop` | src/worker.c:199-258 | the backends' side ends behind a ReadyForQuery, at the top of the next turn, or with the session |
| `Session.RequestReplayed` | src/worker.c:151-258 | the theorems on the turn of a refused request for the session object: the reader has been sent the request, the writer the log and the same request, and the client, if nothing was read behind the refusal, the writer's reply and nothing of the refusal |
| `Session.HandleRefusal` | src/worker.c:151-265 | the same of the session loop when it is run for as many messages as that takes |
| `Session.HandleUntil` | src/worker.c:151-265 | when the loop is run for as many messages as the machine takes to a state, all outputs begin with what they are there; and if the machine ends there, so does the session, exactly |
| `Session.HandleCopy` | src/worker.c:223-258 | the turn with a copy, when the loop is run for so many messages: the data is sent to the backend that answered with a message of type 'G' |
| `Session.HandleRefusedCopy` | src/worker.c:199-258 | the same of the copy that the reader refuses: the data is sent to the writer only |
| `Session.Serve` | src/worker.c:151-265 | a session on fresh descriptors that hold exactly those octets ends with exactly these outputs |
| `Session.UnfailingSession` | src/worker.c:151-265 | of the session object when no descriptor failed, however short the writes were: the client's output is exactly the replies passed on, the log exactly what was requested since the last failover, and the client's octets are accounted for |
| `Md5.F1IsF` | src/md5.c:18 | the macro with three operations is the function F of RFC 1321, for all words |
| `Md5.G1IsG` | src/md5.c:19 | the macro with three operations is the function G of RFC 1321, for all words |
| `Md5.HAndH2AreH` | src/md5.c:20-21 | both ways of writing the third macro are the function H of RFC 1321 |
| `Md5.RotlIsRotate` | src/md5.c:26 | the masked shifts rotate |
| `Md5.StepIsOp` | src/md5.c:24-27 | one step is the next operation of RFC 1321, section 3.4, with the registers renamed instead of moved |
| `Md5.Steps56` | src/md5.c:72-142 | the 64 unrolled steps compute the 64 operations of RFC 1321, section 3.4, for every state and block |
| `Md5.CounterAdds` | src/md5.c:176-179 | the two words of 29 and 32 bits count the octets modulo 2^61 through every update |
| `Md5.LengthField` | src/md5.c:224-232 | the eight octets stored are the length in bits modulo 2^64, low-order octet first |
| `Md5Spec.FoldSplits` | src/md5.c:53-203 | folding a message is folding its front and then the rest behind the residue of the front, wherever it is cut |
| `Md5Context.MD5.Body` | src/md5.c:53-158 | the loop folds the compression over any positive number of blocks |
| `Md5Context.MD5.Update` | src/md5.c:171-203 | after any update the registers are the fold over the complete blocks of the whole message, the buffer holds the rest, and the counter its length |
| `Md5Context.MD5.Pad` | src/md5.c:209-222 | the padding, in the case of one block and of two, leaves exactly the blocks of RFC 1321, section 3.1, still to be folded |
| `Md5Context.MD5.Raw` | src/md5.c:205-254 | the result is the RFC 1321 digest of the whole message, and the context is cleared |
| `Md5Context.MD5.Hex` | src/md5.c:256-267 | the 32 lower-case hexadecimal digits of that digest, the high one of each octet first, and nothing else in the result changes |
| `Md5Context.DigestInPieces` | src/md5.c:160-267 | for every message and every way of cutting it into updates the result is the digest of the whole, in lower-case hexadecimal digits |
| `Md5Context.HexDigits` | src/md5.c:263-266 | each octet is written as two of the characters 0123456789abcdef, its high half first |
| `Md5Answer.AlphabetDigest` | src/md5.c:53-254 | the digest of the alphabet is the one in the test suite of RFC 1321, section A.5 |
| `Md5Context.HexIsInjective` | src/md5.c:263-266 | different octets have different digits |
| `Selection.DetermineBackends` | src/worker.c:55-121 | the master chosen is the last one; there is no reader if and only if no backend that is not a master, is healthy and does not lag has any weight; otherwise a positive random value selects such a one, into whose stretch of the running sums of weights it falls, and the search never falls through |
| `Selection.SelectsTheStretch` | src/worker.c:95-116 | a value from 1 to the total selects a backend if and only if that is not a master, is healthy, does not lag, and the value falls into its stretch of the running sums, which is as long as its weight |
| `Selection.SelectedByWeight` | src/worker.c:63-120 | each backend is selected by exactly as many values as its weight says if it is not a master, is healthy and does not lag, and by none otherwise |
| `Selection.ReaderIsViableIff` | src/worker.c:95-99 | the reader is a healthy slave that does not lag if and only if the value is not zero or the first backend happens to be one: zero always selects index 0 |
| `Shared.StepKeepsInv` | src/watcher.c:88-367 | every enabled step of any watcher, worker, monitor or supervisor keeps the invariant of locks, caches, choices and counters |
| `Shared.RunKeepsInv` | src/main.c:349-430 | so it holds in every state of every interleaving of any number of threads |
| `Shared.LocksNest` | src/monitor.c:34-64 | backend locks are held only under the context lock and one at a time, and a written backend by one thread only |
| `Shared.LockModes` | src/locks.inc.c:20-57 | what only looks at the table shares the context lock, what changes the table or a counter has it alone; a backend is read under its shared lock and written under its exclusive one |
| `Shared.HoldersRun` | src/locks.inc.c:20-57 | a thread that holds the context lock never waits, even where waiting writers keep new readers out |
| `Shared.NoDeadlock` | src/locks.inc.c:20-57 | where any thread has more to do than wait for the outside, some such thread can go on |
| `Shared.HoldersRelease` | src/worker.c:61-120 | every step of a holder brings the release of the context lock nearer |
| `Shared.FrozenUnderReadLock` | src/worker.c:61-120 | while any thread holds the context lock for reading, no step of any thread changes the table |
| `Shared.OneTableForAReader` | src/worker.c:61-120 | over any stretch of a run in which a thread holds it, the table it sees last is the one it saw first |
| `Shared.ChoiceIsOfTheTable` | src/worker.c:69-112 | a worker's choice is the one the selection makes on the table as it stands when it lets go, with the serials that stand there; for a positive value a healthy slave that does not lag |
| `Shared.SearchEndsInside` | src/worker.c:97-120 | the second loop never falls through, in any interleaving |
| `Shared.PublishedIsCurrent` | src/watcher.c:328-356 | health is published only from a probe made with the backend's current settings; a backend whose serial moved on is left alone, and nothing else about it changes |
| `Shared.RoundDropped` | src/watcher.c:318-325 | over any run: a round of the watcher that ends awake and not asleep has published nothing, and the number of backends was not what it was at the snapshot |
| `Shared.RoundCountsHealthy` | src/watcher.c:327-363 | at the end of a round the healthy are counted exactly, but for the skipped ones still marked healthy; the count is exact if and only if there are none |
| `Shared.HealthyAreMarked` | src/monitor.c:36-38 | in every run whose reloads keep the number of backends and their statuses, as every reload of this code does, no more backends are counted healthy than are marked so whenever nobody holds the write lock |
| `Shared.CountersHold` | src/monitor.c:36-38 | whenever nobody holds the write lock as many clients are counted as workers serve, and the bound on the healthy holds unless a reload has changed a status or the number of backends since the last count |
| `Shared.BoundAfterReloadIff` | src/main.c:416-428 | in every run, after a reload to any table and until the table changes again or the watcher counts anew: the bound holds if and only if the reload left as many healthy backends as had been counted |
| `Shared.FewerBackendsBreakIt` | src/main.c:416-428 | such a reload, at the end of a run: one backend is counted healthy and none is marked so, while nobody holds a lock |
| `Authdb.Lexer.Any` | src/authdb.c:203-241 | blanks and comments are skipped without changing what the next token is |
| `Authdb.Lexer.Bareword` | src/authdb.c:243-260 | the word and the rest of the text, with the step back at the end of the file |
| `Authdb.Lexer.QuotedString` | src/authdb.c:262-285 | the string through its closing quote, past escaped octets, or an error if it is not closed |
| `Authdb.Lexer.Emit` | src/authdb.c:186-197 | one token at a time, the lexer reads the text as the token function on its rest says, for every text |
| `Authdb.Parser.ParseTop` | src/authdb.c:444-541 | each step keeps the entries found and still to come together; it ends or makes progress |
| `Authdb.Parser.ParseAll` | src/authdb.c:423-428 | the parser stops on every text with exactly its entries, newest first, and never reports a failure |
| `Authdb.CopyBack` | src/authdb.c:609-617 | copying the list into the arrays from their ends undoes its reversal |
| `Authdb.Table.Load` | src/authdb.c:578-621 | the arrays hold the entries of the text, in its order |
| `Authdb.Table.Find` | src/authdb.c:623-640 | the loop computes the lookup on the entries |
| `Authdb.LookupIsFirst` | src/authdb.c:630-636 | the lookup gives the hash of the first entry with the name, and none if and only if there is no such entry |
| `Authdb.Quote` | src/authdb.c:643-669 | the two passes agree and escape exactly the double quotes |
| `Authdb.Print` | src/authdb.c:689-707 | the printer writes the header and one line for each entry, quoting exactly the hashes with whitespace |
| `Authdb.PrintLoadFind` | src/authdb.c:578-707 | printed, loaded and looked up, a name gives the hash of its first entry in the printed list |
| `Authdb.LoadFind` | src/authdb.c:578-640 | a file that was written by hand, loaded and looked up: the hash found is that of the first line for the user, and none if and only if there is no such line |
| `AuthText.ParseUser` | src/authdb.c:444-493 | a line with a plain name gives its entry with whatever the next token is for a hash, or ends the parse |
| `AuthText.LineParses` | src/authdb.c:186-541 | a line with a user, the word md5 and a hash gives exactly that entry, for any runs of spaces, tabs, vertical tabs, form feeds and carriage returns between them, each bare or in quotes of either kind with its escapes, and with a comment behind it |
| `AuthText.FileParses` | src/authdb.c:186-541 | so a whole file of such lines, blank lines and comments gives exactly its entries in order |
| `AuthText.LastWordCutShort` | src/authdb.c:243-260 | when the last line lacks its newline its hash loses its last octet |
| `AuthText.BackslashIsLost` | src/authdb.c:381-415 | a quoted hash with a backslash never comes back as it was, whatever follows it: the printer does not escape backslashes |
| `AuthText.RunOfBackslashes` | src/authdb.c:395-412 | why: unescaping falls behind a run of backslashes and cannot catch up |
| `AuthText.LinesParseIff` | src/authdb.c:444-541 | any list of entries with plain names comes back in order if and only if every hash is without a backslash when it has whitespace, and a plain word when it has none |
| `AuthText.DumpParsesIff` | src/authdb.c:444-707 | the same for the whole printed file |
| `AuthText.LineShows` | src/authdb.c:689-707 | a printed line octet by octet: single spaces, the word md5, and quotes if and only if the hash holds a space or anything from tab to carriage return |
| `AuthText.QuotedIs` | src/authdb.c:643-669 | in quotes a backslash stands before every double quote, and nothing else changes |
| `AuthText.DumpShows` | src/authdb.c:689 | the header of the file, octet by octet |
| `Startup.ExtractsIff` | src/conn.c:113-160 | any list of parameters comes back in order, whatever lies behind the message, if and only if no name and no value is empty |
| `Startup.StartupRoundTripIff` | src/conn.c:19-160 | the same for the whole message, read from the offset the reader starts at |
| `Startup.FoundIff` | src/conn.c:113-160 | for any memory whatsoever: exactly these parameters are found, and their end, if and only if all have a name and a value and they stand at its front, but for NULs missing at its end |
| `Startup.CutFoundIff` | src/conn.c:113-160 | so from a buffer that is otherwise zero the parameters of a message that has not arrived completely are found if and only if at most its last two octets are missing |
| `Startup.NameCutShort` | src/conn.c:113-160 | what is found then, for one parameter: a message that breaks off within its value is read as one with the front of that value |
| `Startup.ClassifiedIff` | src/msg.c:416-431 | a startup message is classified as one if and only if it is not 16 octets long; then it is taken for a CancelRequest |
| `Startup.ShortStartupIsCancel` | src/msg.c:424 | such a message exists: a user with a name of one letter, and nothing else |
| `Startup.PasswordAcceptedIff` | src/conn.c:55-180 | the password message built from one 32-character hash and salt is accepted for another hash and salt if and only if both have the same digest |
| `Startup.PasswordFrames` | src/conn.c:64-67 | the password message is one complete frame of its type |
| `Conn.Connection.StartupMessage` | src/conn.c:19-40 | the whole message is put behind what is buffered if and only if it fits; success is reported in any case |
| `Conn.Connection.PasswordMessage` | src/conn.c:55-68 | success exactly if 41 octets fit; then they are the message for the hash and the salt |
| `Conn.Connection.ExtractParams` | src/conn.c:113-160 | the parameters in the memory behind the header are appended to those there were; user and database are the last ones so named, and the password hash is that of the user |
| `Conn.Introduce` | src/conn.c:19-160 | built at one end and extracted at the other, all parameters arrive behind those there were if and only if none is empty |
| `Conn.Connection.CheckAuth` | src/conn.c:162-180 | 0 exactly if 32 octets behind the prefix are buffered and are the digest of the hash and the salt |
| `Conn.Connection.Reply` | src/conn.c:382-389 | a message of the router's own is put behind what the client has sent already, and the first message in the buffer goes out |
| `Conn.Connection.Complain` | src/conn.c:75-96 | the parts of the ErrorResponse are put behind what is buffered as far as they fit, and the first message in the buffer goes out |
| `Conn.Connection.AcceptOne` | src/conn.c:350-431 | one message of a client's becomes acts of the machine, and what is returned tells how the conversation stands |
| `Conn.Connection.Accept` | src/conn.c:340-433 | the conversation is a run of the machine, the ErrorResponse after a wrong password included, and the connection and the descriptors are where it leads; 0 is returned if and only if the machine lets the client in, and then the run holds a password message that proves it |
| `Admission.OnlyThePasswordLetsIn` | src/conn.c:340-426 | whatever the client sends and whatever fails, a client is let in only after a password message was looked at whose 32 digits are the digest of the hash of the user it named and the salt, and nothing changed since |
| `Admission.UserIsLastNamed` | src/conn.c:138-149 | that user is the last one among all parameters the client sent |
| `Admission.CutNameIsLookedUp` | src/conn.c:123-149 | so a startup message that was read to the middle of the user's name into a new buffer asks for the password of the user whose name is the front of it |
| `Admission.NothingMadeUp` | src/conn.c:349-432 | whatever fails, what is looked at is the end of a stream woven from what the client sent and what it was answered, each in order |
| `Admission.WaitingClient` | src/conn.c:349-432 | for a client that waits for each answer, what is looked at is a piece of what it sent, and it receives exactly the answers |
| `Admission.AnswerGoesOutIff` | src/conn.c:382-389 | an answer goes out as it is if and only if nothing more of the client's is buffered, unless that begins like the answer |
| `Admission.AnswerIsFrontIff` | src/conn.c:382-389 | in any case it does if and only if what is buffered, the answer and what is still to come begin with it |
| `Admission.AnswerBouncesMessage` | src/conn.c:382-389 | an answer to a client that has sent a whole message more already sends that message back to it |
| `Admission.WrongPasswordIsTold` | src/conn.c:75-96 | after a wrong password a client with nothing more buffered gets the whole ErrorResponse if that fits, and behind it the next octet of its own: the length field counts one octet too many |
| `Admission.ErrorShows` | src/conn.c:75-96 | what that ErrorResponse says, octet by octet |
| `Admission.HonestClientGetsIn` | src/conn.c:340-426 | a client that is in the authdb, whose startup message fits and is not 16 octets long, that knows its password and waits for the answers is let in, whether it asks for SSL first or not, whatever stale octets lie in the buffer, and receives exactly an N if it asked for SSL, the salt, AuthenticationOk and ReadyForQuery, octet by octet; the user and the database are the last ones called so |
| `Admission.SslIsDeclined` | src/conn.c:359-366 | a client whose next message is the eight octets of an SSLRequest, read alone, gets exactly an N; its message is gone and the conversation awaits the next one |
| `Admission.CancelIsIgnored` | src/conn.c:368-371 | a CancelRequest that is read alone is dropped, and nothing else happens |
| `Admission.OtherMessageEnds` | src/conn.c:428-430 | a message of any other type octet from 4 on ends the conversation, and nothing is sent |
| `Admission.WrongPasswordEnds` | src/conn.c:392-403 | a password message with other digits than those of the hash of the user and the salt, or for a user that is not known, ends it, and the client is sent that ErrorResponse |
| `Conn.KnownClientIsAccepted` | src/conn.c:340-426 | for what Accept returns: from such a client 0, if it is watched for 13 messages |
| `Conn.AcceptKnown` | src/conn.c:340-433 | on descriptors that hold what such a client says 0 is returned, exactly the answers have been written, and what the client says next is still unread |
| `Admission.WaitingIsPossible` | src/conn.c:340-426 | for every such client there is a pace of the reads at which each of its messages is read alone |

## Left out

- Mbuf.MBuf.Drain: takes a bound on its rounds, because the loop need not end; Buffer.DrainStopsIff says when it does, and where it stops, any longer bound gives the same.
- Buffer.DrainEnds: is about streams without an SSLRequest, which only clients send: the type of that one message depends on how much of it is buffered.
- Mbuf.MBuf.Send: the temporary file is a value that takes whole writes or fails; short writes to it are not modelled.
- Session.Session.HandleClient: starts where both backends are connected and is watched for a bounded number of messages, so that loops of the code that need not end are covered up to any bound. After a failure of a descriptor the routing is promised, and of the streams that nothing is made up. What a backend gets out of a `writen` call that was short is not promised beyond Streams.Writen.
- Conn.Connection.Accept: is watched for a bounded number of messages; what is printed for a user that was never named is arbitrary.
- Admission.HonestClientGetsIn: a client that waits is one each of whose messages is read alone.
- Conn.Connection.ExtractParams: memory behind the end of the buffer array is taken to start with a NUL, and what lies behind the buffered octets is arbitrary.
- Conn.Connection.CheckAuth: a password message that is too short is not accepted, where the code would compare through a null pointer.
- Shared.CountersHold: after a reload that changed the number of backends or a status what holds of the healthy until the next round is in Shared.BoundAfterReloadIff; a reload is taken to give every backend it changes a serial never used before.
- Selection.DetermineBackends: weights are not negative and their sum does not overflow.
- What a client has pipelined behind its password stays in the buffer of `pgr_conn_accept` (src/conn.c:346), which the session does not get: the session is modelled from the descriptor on.
- Sockets, select, timers, signals and daemonising (src/net.c, src/main.c): descriptors and lock steps only.
- `pgr_conn_connect` beyond the messages it builds: its replies from backends are not modelled.
- The queries of a probe and the lag arithmetic (src/watcher.c:41-80, 187-306, 349): an arbitrary status, role and lag.
- `pgr_rand` (src/rand.c): an arbitrary value in its range, zero and the total included.
- The configuration parser (src/config.c): the table and what a reload makes of it are arbitrary.
- The client's descriptor as one object: its input and its output are separate here.
- Logging, hexdumps, abort, allocation failure and freeing of memory.
