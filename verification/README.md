# A verified model of redis-mulive-router

redis-mulive-router is a Redis proxy for several data centres ("zones"). Clients talk to the router of their own zone;
the router forwards commands to the zones' Redis servers. Keys may name a zone (`zone:rest`). This project models
three connected parts of it in Dafny and proves what they promise.

**The RESP codec over hand-written buffered I/O.** `Resp` is the reference encoder and decoder on byte strings, `Stream`
the reference reading operations on a byte stream. `Slices`, `BufReader`, `BufWriter`, `Encoder` and `Decoder` are the
classes of the code, with their buffers, positions and sticky errors, and are proved to do exactly what the reference
functions say. `RespTheorems` proves the format's own laws, and `WireFormat` spells the format out in bytes, faults
included. `ReaderRuns` and `Transfer` put whole runs together, and `Numbers` covers the two integer conversions.

**The backend pipeline.** `Pipeline` is a backend connection as a step system: any number of producers, the input channel
of 10240 requests, the writer goroutine, and for every round a task channel, a reader goroutine and a FIFO server, with
readers of old rounds still draining while new rounds run. `PipelineInvariants` proves what each step keeps;
`PipelineTheorems` and `PipelineOutcomes` draw the conclusions. `Conn` is the counting encoder both writers flush through,
`RequestChan` the unbounded queue with its condition variable (an abstract queue of which the class is a refinement), and
`Session` a client session as a step system. `EndToEnd` runs a session and a backend connection together.

**The multi-zone router.** `Zones` is a zone as a store behind a FIFO queue of commands; every command carries a fate
(served, lost with or without effect, refused, dropped on a full input, nil connection) that the router does not know.
`Transaction` is the exec/check/rollback SET of an unprefixed key, with `TransactionTheorems` on what a failed one leaves;
`Router` is dispatch: read-through GET and replicated SET. `Replication` lets all routers, clients and servers interleave
at every Forward; `ReplicaOrder`, `ReplicaDivergence` and `ReplicaStaleFill` say when copies keep the owner's order and
when they do not. `Pool` keeps the accounts of the shared backend connections; its `Router` is the router's zone table,
`Router.Router` is the router's dispatch.

## What was found

- A read-only request skipped because its client has gone can leave an earlier, unflushed request waiting until another
  request arrives (`PipelineTheorems.SkippedRequestStrandsOthers`), exactly when the tasks channel has room for two or
  more (`PipelineTheorems.IdleIsFlushedExactly`).
- A request pushed after the writer's last drain and before it sees `closed` is never answered
  (`PipelineTheorems.LatePushIsNeverAnswered`).
- An inline command may have more words than an array may have elements, so it can be accepted and yet not be readable
  once forwarded (`RespTheorems.LongInlineIsLost`).
- The text of an error reply to a GET is taken for a value: a rollback writes it back and a read-through caches it
  (`TransactionTheorems.RollbackWritesErrorText`, `Router.ErrorTextIsCached`). A rollback also loses the expiry and turns
  an empty string into an absent key (`TransactionTheorems.RestoredExactly`).
- A failed SET of an unprefixed key is not undone where the rollback command is dropped, refused or lost
  (`TransactionTheorems.HalfASet`, `TransactionTheorems.FailedSetReadsAsBefore`).
- A panic is recovered as success: after a nil connection during a rollback, or while a SET is replicated, dispatch
  returns nil and the client reads its own zone's reply (`TransactionTheorems.HalfASet`, `Router.HalfAReplication`), and
  exactly then (`TransactionTheorems.FailureReadsAsSuccess`, `Router.Router.SetHome`).
- A client's request that meets a nil connection hangs: its batch has been counted up and is never counted down, and the
  session waits for it. Witnesses are `Router.HangingGet` and `Router.HangingSet`; the exact conditions are in
  `Router.HangsExactly` for a GET and in `Router.Router.DispatchSet` for a SET, with
  `TransactionTheorems.HangsInSomeOrder` and `TransactionTheorems.HangsInEveryOrder` for a key without a zone.
- The SET branch takes no lock: two SETs of one key dispatched at once can leave zones with different values for good
  (`ReplicaDivergence.OverlappingSetsDiverge`). Even with SETs one at a time a read-through can write a value it fetched
  earlier over a newer one (`ReplicaStaleFill.StaleFillDiverges`). Without either they agree
  (`ReplicaOrder.SettledCopiesAgree`).
- A home TTL of 0 (less than a second left) is copied as no expiry at all (`Router.FillCopiesHome`).
- Masters of other names and overwritten zones leave retains that nothing releases (`Pool.SecondMasterIsStray`,
  `Pool.DisplacedZoneIsStray`), and nothing else does (`Pool.StraysExactly`, `Pool.FillStraysExactly`, `Pool.Live`).

## Model

| member | source | states |
|---|---|---|
| Numbers.Btoi64 | pkg/proxy/redis/decoder.go:33-62 | on every byte string, the nine-character fast path and the strconv fallback together return what full signed 64-bit decimal parsing returns, including "+3", "007", "-0", a lone sign and overflow |
| Numbers.NineDigitsFit | pkg/proxy/redis/decoder.go:34-47 | the digits the fast path accumulates stay below 10^9, so its int64 accumulator cannot overflow |
| Numbers.ItoaTable.constructor | pkg/proxy/redis/encoder.go:20-32 | the offset table built once delimits, in one shared text, the decimal form of every number of its range, and every offset fits uint32 |
| Numbers.ItoaTable.Itoa | pkg/proxy/redis/encoder.go:34-44 | for every integer, in the table or not, the text is the ordinary decimal text |
| Numbers.ItoaTable.ItoaThenBtoi64 | pkg/proxy/redis/encoder.go:34-44 | printing with the table and parsing with Btoi64 gives the number back, for every int64 |
| Numbers.ParseFormat | pkg/proxy/redis/decoder.go:57-61 | ParseInt of FormatInt is the identity on int64 |
| Numbers.FormatIsShortest | pkg/proxy/redis/decoder.go:33-62 | no accepted spelling of a number is shorter than the printed one, so re-encoding a decoded length never needs a larger buffer |
| Slices.SliceAlloc.Make | pkg/utils/bufio2/slice.go:10-23 | a region of exactly n bytes, disjoint from every region handed out before and from what will be handed out later; no earlier region changes |
| Slices.SliceAlloc.Put | pkg/utils/bufio2/bufio.go:150-161 | copying into one region leaves the bytes of all other regions as they are |
| BufReader.Source.Read | pkg/utils/bufio2/bufio.go:52-59 | the io.Reader behind the buffer: n > 0 bytes without an error, or an error with n = 0; no byte is lost or invented |
| BufReader.Reader.constructor | pkg/utils/bufio2/bufio.go:29-41 | a new reader has everything its source will deliver still to read; a size of zero or less means 1024 |
| BufReader.Reader.Fill | pkg/utils/bufio2/bufio.go:43-61 | compaction and reading keep "buffered bytes, then bytes still to come"; a call with room either makes progress or records the source's error, which sticks |
| BufReader.Reader.Read | pkg/utils/bufio2/bufio.go:67-86 | any Read returns the next bytes of the stream, through the buffer or directly into p, and an error only at the end of the stream |
| BufReader.Reader.ReadByte | pkg/utils/bufio2/bufio.go:88-100 | the first byte still to come, or the source's error exactly when there is none |
| BufReader.Reader.PeekByte | pkg/utils/bufio2/bufio.go:102-113 | the same byte, without consuming it |
| BufReader.Reader.ReadSlice | pkg/utils/bufio2/bufio.go:115-135 | exactly the bytes up to the first delimiter; ErrBufferFull with one buffer of bytes when the line does not fit; otherwise the sticky error |
| BufReader.Reader.ScanBuffer | pkg/utils/bufio2/bufio.go:120-130 | what the bytes at hand decide about the line is right for the whole stream |
| BufReader.Reader.ReadBytes | pkg/utils/bufio2/bufio.go:137-162 | exactly the bytes up to the first delimiter of the stream however often the buffer overflows, in a region of their own; every region returned earlier keeps its bytes |
| BufReader.Reader.ReadFragments | pkg/utils/bufio2/bufio.go:141-154 | the copied fragments and the last window are the line, in order |
| BufReader.Reader.ReadPiece | pkg/utils/bufio2/bufio.go:142-152 | one turn of that loop: a full buffer copied out without a delimiter in it, or the end of the line |
| BufReader.Reader.Join | pkg/utils/bufio2/bufio.go:155-161 | the fragments put end to end are the line |
| BufReader.Reader.IoReadFull | pkg/utils/bufio2/bufio.go:169-171 | io.ReadFull on this reader: all n bytes, or EOF / ErrUnexpectedEOF according to what was left |
| BufReader.Reader.ReadFull | pkg/utils/bufio2/bufio.go:164-173 | exactly the next n bytes, in a region of their own; earlier regions keep their bytes |
| BufReader.LineAfter | pkg/utils/bufio2/bufio.go:141-154 | where a line ends, seen from behind any part of it that held no delimiter |
| ReaderRuns.Step | pkg/utils/bufio2/bufio.go:88-173 | one call of any kind advances the reader exactly as computed from the bytes still to come, the buffer size and the final error alone; what ReadBytes and ReadFull return lies in a region handed out by the arena |
| ReaderRuns.Run | pkg/utils/bufio2/bufio.go:88-173 | over any sequence of calls the outcomes are those computed from the stream itself, so they do not depend on how it is cut into reads; at the end every region returned during the run or before it holds the bytes it was returned with |
| BufWriter.Sink.Write | pkg/utils/bufio2/bufio.go:212-219 | the io.Writer behind the buffer: any prefix of p is delivered, with or without an error |
| BufWriter.Writer.Flush | pkg/utils/bufio2/bufio.go:201-221 | without an error everything accepted has been delivered and the buffer is empty; a failed or short write sticks, and what went out is a prefix |
| BufWriter.Writer.Write | pkg/utils/bufio2/bufio.go:227-245 | through the buffer, by flushing or directly: all of p is accepted in order, or an error sticks and a prefix went out; the loop ends |
| BufWriter.Writer.WriteByte | pkg/utils/bufio2/bufio.go:247-257 | the byte is accepted, flushing first when the buffer is full |
| BufWriter.Writer.WriteString | pkg/utils/bufio2/bufio.go:259-272 | as Write, but only through the buffer; the loop ends by a lexicographic measure |
| BufWriter.Run | pkg/utils/bufio2/bufio.go:201-272 | for any mix of calls and any buffer size, delivered then buffered is the concatenation of everything written, unless an error occurred; then a prefix of it was delivered |
| Encoder.Encoder.Encode | pkg/proxy/redis/encoder.go:66-76 | writes exactly the reference encoding of the value; nil exactly when nothing failed and every kind is known; with flush everything accepted has been delivered; the first error sticks |
| Encoder.Encoder.EncodeMultiBulk | pkg/proxy/redis/encoder.go:78-88 | the same for a request |
| Encoder.Encoder.Flush | pkg/proxy/redis/encoder.go:90-98 | without an error everything accepted has been delivered; the first error sticks |
| Encoder.Encoder.EncodeResp | pkg/proxy/redis/encoder.go:112-126 | the recursive encoder writes the reference encoding and fails exactly on an unknown kind or a write error |
| Encoder.Encoder.EncodeBulkBytes | pkg/proxy/redis/encoder.go:159-168 | nil is $-1, empty is $0: different bytes for different values |
| Encoder.Encoder.EncodeArray | pkg/proxy/redis/encoder.go:170-184 | nil is *-1, empty is *0; elements in order |
| Decoder.Decoder.Decode | pkg/proxy/redis/decoder.go:84-93 | on the real buffer: the value, the bytes left and the error of the reference decoder on the stream; after an error every call fails and consumes nothing |
| Decoder.Decoder.DecodeMultiBulk | pkg/proxy/redis/decoder.go:95-104 | the same for a request |
| Decoder.Decoder.DecodeResp | pkg/proxy/redis/decoder.go:118-136 | one value as the reference decoder defines it; the recursion ends because the stream shrinks |
| Decoder.Decoder.DecodeTextBytes | pkg/proxy/redis/decoder.go:138-148 | a text line as the reference decoder defines it |
| Decoder.Decoder.DecodeInt | pkg/proxy/redis/decoder.go:150-160 | a length line as the reference decoder defines it, including ErrBufferFull for one longer than the buffer |
| Decoder.Decoder.DecodeBulkBytes | pkg/proxy/redis/decoder.go:162-183 | a bulk string: nil, empty, its limits and its CRLF |
| Decoder.Decoder.DecodeArray | pkg/proxy/redis/decoder.go:185-207 | an array: nil, empty, its limits and its elements in order |
| Decoder.Decoder.DecodeRequest | pkg/proxy/redis/decoder.go:229-262 | inline command or array of bulks; any other element is refused |
| Decoder.SplitWords | pkg/proxy/redis/decoder.go:214-222 | the scan finds the maximal runs without a space, in order |
| RespTheorems.RoundTrip | pkg/proxy/redis/decoder.go:118-207 | for every value within the limits and every rest of the stream, decoding its encoding gives the value and leaves exactly the rest |
| RespTheorems.RoundTripExactly | pkg/proxy/redis/encoder.go:112-184 | a value comes back from the wire if and only if its texts are free of LF, its bulks and arrays are within the limits and its length lines fit the buffer |
| RespTheorems.ManyRoundTrip | pkg/proxy/redis/decoder.go:198-206 | the same for any sequence of values |
| RespTheorems.BufferOfElevenBytes | pkg/proxy/redis/decoder.go:150-160 | for any buffer of at least eleven bytes that condition is the format's own limits and nothing else |
| RespTheorems.ElevenBytesSuffice | pkg/proxy/redis/encoder.go:155-157 | every length line within the limits is at most eleven bytes |
| RespTheorems.DecodedIsWellFormed | pkg/proxy/redis/decoder.go:118-207 | whatever bytes were accepted, the value is within the encoder's domain and in normal form |
| RespTheorems.ReencodingDecodes | pkg/proxy/redis/decoder.go:118-207 | a decoded value, encoded again, decodes to itself |
| RespTheorems.DecodeCut | pkg/proxy/redis/decoder.go:118-207 | how decoding a stream that was cut off relates to decoding all of it: the same value, the same fault, or a demand for more bytes, whether the whole stream decodes or not |
| RespTheorems.NoProperPrefixDecodes | pkg/proxy/redis/decoder.go:118-207 | no proper prefix of an encoding decodes; the decoder asks for more bytes |
| RespTheorems.DecodeBulksIsDecodeMany | pkg/proxy/redis/decoder.go:250-261 | reading a request is reading values, plus the check that each is a bulk |
| RespTheorems.MultiBulkRoundTrip | pkg/proxy/redis/encoder.go:128-133 | a non-empty list of bulks within the limits comes back as a request |
| RespTheorems.MultiBulkRoundTripExactly | pkg/proxy/redis/decoder.go:229-262 | and no other request does |
| RespTheorems.AcceptedRequestIsBulks | pkg/proxy/redis/decoder.go:209-262 | an accepted request is a non-empty list of bulks; one that came as an array is within the limits |
| RespTheorems.AcceptedRequestReencodes | pkg/proxy/redis/decoder.go:209-227 | an accepted request can be forwarded and read back if and only if it fits the limits of an array |
| RespTheorems.LongInlineIsLost | pkg/proxy/redis/decoder.go:209-227 | an inline command of n words, for every n above MaxArrayLen, is accepted and cannot be read back once forwarded, whatever the buffer |
| Resp.WordsAreWords | pkg/proxy/redis/decoder.go:214-222 | the words of an inline command are non-empty and free of spaces |
| WireFormat.WrittenForms | pkg/proxy/redis/encoder.go:112-184 | in literal bytes, the five kinds are written as the Redis protocol says: type byte, then a line, a length and a payload with CR LF, or the elements one after the other; nil is -1; an unknown kind is its byte alone |
| WireFormat.PlainRoundTrip | pkg/proxy/redis/decoder.go:118-207 | a value that uses the fields of its kind and no others comes back unchanged, kind and contents, with the rest of the stream untouched |
| WireFormat.PlainRoundTripExactly | pkg/proxy/redis/decoder.go:118-207 | and exactly the encodable ones of them do |
| WireFormat.NormalKeeps | pkg/proxy/redis/decoder.go:118-207 | what any other value comes back as: its kind is kept, a nil text becomes empty, a bulk keeps nil or its payload, an array nil or its elements in order |
| WireFormat.DecodedIsPlain | pkg/proxy/redis/decoder.go:118-207 | whatever bytes were accepted, the value uses the fields of its kind and no others, at any depth |
| WireFormat.DecimalText | pkg/proxy/redis/encoder.go:34-44 | numbers are written in decimal, most significant digit first, without leading zeros, with a minus sign in front |
| WireFormat.ParsedTexts | pkg/proxy/redis/decoder.go:33-62 | digits behind an optional sign denote their decimal value if it fits in 64 bits, and no number otherwise |
| WireFormat.NoOtherNumber | pkg/proxy/redis/decoder.go:33-62 | no other text is a number |
| WireFormat.UnknownKind | pkg/proxy/redis/decoder.go:118-136 | a byte that is no type byte is named in the error; without a byte the error is that of the stream |
| WireFormat.BrokenText | pkg/proxy/redis/decoder.go:138-148 | a text line without CR before its LF is malformed, one without LF is cut short |
| WireFormat.BadLength | pkg/proxy/redis/decoder.go:162-207 | the error of a length out of range, for bulks, arrays and requests, at the exact limits |
| WireFormat.BadLengthLine | pkg/proxy/redis/decoder.go:150-160 | the error of a length line that is no number, does not fit the buffer, does not end in CR LF, or does not end |
| WireFormat.BadPayload | pkg/proxy/redis/decoder.go:162-183 | the error of a payload that is cut short, or not followed by CR LF |
| WireFormat.BadElement | pkg/proxy/redis/decoder.go:185-207 | the first element that is refused decides the error of its array |
| WireFormat.BadRequestElement | pkg/proxy/redis/decoder.go:229-262 | the first element of a request that is refused, or is no bulk string, decides the error of the request |
| WireFormat.WordByWord | pkg/proxy/redis/decoder.go:214-222 | a run without a space is one word, and spaces between words do not count |
| WireFormat.InlineRequest | pkg/proxy/redis/decoder.go:209-227 | an inline command is the list of its words as bulk strings; a line without words is refused |
| Transfer.Send | pkg/proxy/redis/encoder.go:66-98 | values encoded one after the other with any pattern of flushes: their encodings arrive at the sink, concatenated |
| Transfer.Receive | pkg/proxy/redis/decoder.go:84-93 | n values decoded one after the other are what the reference decoder reads |
| Transfer.ValuesArrive | pkg/proxy/redis/decoder.go:84-207 | through real buffers: for every write buffer, flush pattern, chunking and read buffer, the values sent are the values received, in order, those that use only the fields of their kind exactly as they were, and the rest of the stream is untouched |
| Transfer.RequestsArrive | pkg/proxy/redis/decoder.go:95-262 | the same for requests |
| Conn.FlushEncoder.Flush | pkg/proxy/redis/conn.go:165-185 | without an error at most MaxBuffered encodings are buffered; after a flush all accepted bytes have been delivered, otherwise nothing changed |
| Conn.FlushEncoder.Encode | pkg/proxy/redis/conn.go:187-194 | counts one more buffered encoding exactly when it was written |
| Conn.FlushEncoder.EncodeMultiBulk | pkg/proxy/redis/conn.go:196-203 | the same for requests |
| PipelineInvariants.StepInv | pkg/proxy/pool.go:253-375 | every step of producers, writer, readers and servers keeps the whole invariant: places, counters, order on each connection, flush discipline, pairing |
| PipelineInvariants.RunInv | pkg/proxy/pool.go:253-375 | so does every run |
| PipelineTheorems.ExactlyOnePlace | pkg/proxy/pool.go:68-79 | in every reachable state every push is in exactly one place: input channel, writer's hand, one connection's channel or reader, completed, or dead on the closed channel; with any number of old readers still draining |
| PipelineTheorems.CompletedAtMostOnce | pkg/proxy/pool.go:241-250 | no push is completed twice, whoever completes it |
| PipelineTheorems.BatchIsUnresolved | pkg/proxy/pool.go:68-79 | a request's batch counter equals the number of its pushes not yet completed, so it never goes negative |
| PipelineTheorems.ReplyIsItsOwn | pkg/proxy/pool.go:272-305 | every successful response is the server's answer to that very request, from the one connection it was written on, at the position it was written at |
| PipelineTheorems.OnOneConnection | pkg/proxy/pool.go:354-373 | a request written on one connection is never written on another: nothing crosses rounds |
| PipelineTheorems.WrittenInOrder | pkg/proxy/pool.go:354-373 | what was written on a connection is, in order: resolved, reader's hand, channel, writer's hand; the channel never exceeds its capacity |
| PipelineTheorems.BlockedAwaitsFlushed | pkg/proxy/pool.go:350-370 | for every channel capacity: while the writer is blocked on a full channel, the request whose reply the reader awaits has been flushed and received |
| PipelineTheorems.BlockedCanProceed | pkg/proxy/pool.go:350-370 | and a run of at most three failure-free steps of server and reader unblocks the writer: no deadlock |
| PipelineTheorems.IdleHasFlushed | pkg/proxy/pool.go:348-372 | a writer idle on an empty input has flushed everything, unless the last thing it did was to skip a broken read-only request |
| PipelineTheorems.SkippedRequestStrandsOthers | pkg/proxy/pool.go:356-359 | that exception is reachable for every capacity of at least two, soon after an earlier request was flushed and answered: a written request stays unflushed while its reader waits for it and nothing is on the input |
| PipelineTheorems.IdleIsFlushedExactly | pkg/proxy/pool.go:348-372 | a writer idle on an empty input has flushed all it wrote, in every reachable state, if and only if the capacity of the tasks channel is zero or one |
| PipelineTheorems.StoppedForGood | pkg/proxy/pool.go:253-262 | after the writer has stopped nothing leaves the input channel |
| PipelineTheorems.StrandedForEver | pkg/proxy/pool.go:253-262 | what is on the input channel of a stopped writer is completed in no continuation of the run |
| PipelineTheorems.UnansweredExactly | pkg/proxy/pool.go:253-262 | once the writer has stopped and every reader is gone, the pushes never completed are exactly those on the input channel and those that hit the closed channel |
| PipelineTheorems.LatePushIsNeverAnswered | pkg/proxy/pool.go:329-332 | a push after the last drain and before closed is seen stays there with its batch counter at one, and no continuation completes it |
| PipelineOutcomes.DecodedIsDelivered | pkg/proxy/pool.go:283-303 | in every reachable state each answer that was decoded has been handed, as it is, to the request it answers |
| PipelineOutcomes.UnansweredOutcomes | pkg/proxy/pool.go:272-305 | of the requests written on a connection without an answer, the first has failed in reading and all behind it were reset |
| PipelineOutcomes.UnsentIsUnwritten | pkg/proxy/pool.go:354-373 | a push that completed unsent, or as broken, was written on no connection |
| PipelineOutcomes.OnlyReadsAreSkipped | pkg/proxy/pool.go:356-359 | only read-only requests are skipped as broken |
| PipelineOutcomes.WrittenInPushOrder | pkg/proxy/pool.go:354-373 | requests are written in the order they were pushed, on one connection and from each connection to the next |
| PipelineOutcomes.GivenUpIsReset | pkg/proxy/pool.go:327-336 | once the writer has done with a connection, or with not getting one, every request that was then on the input has been reset |
| PipelineOutcomes.OldChannelsAreClosed | pkg/proxy/pool.go:337-342 | every connection but the one the writer is on has a closed task channel, so that its reader comes to an end |
| PipelineOutcomes.DelaysAndStopsForAReason | pkg/proxy/pool.go:253-326 | the writer delays only after more than ten failures in a row and stops only when told to |
| PipelineOutcomes.RetriesExactly | pkg/proxy/pool.go:307-326 | a connection that ended in an error is retried at once up to ten times in a row, and after a delay from then on |
| PipelineOutcomes.PushGoes | pkg/proxy/pool.go:68-79 | a push goes to the end of the input; at 10240 requests it completes at once, unsent; on a closed channel it panics |
| PipelineOutcomes.FlushesExactly | pkg/proxy/pool.go:362-365 | after a request is written everything written is flushed if no other one waits, more than half a channel is unflushed or the time is up, and nothing otherwise |
| RequestChan.NoLostWakeup | pkg/proxy/request.go:148-172 | in every interleaving of pushes, pops, wake-ups and Close, with any number of consumers, the signalled consumers are at least min(items, waiting consumers); after Close nobody sleeps |
| RequestChan.FirstInFirstOut | pkg/proxy/request.go:148-172 | in every interleaving what comes out is what went in, in order, nothing lost or doubled |
| RequestChan.ClosedExactly | pkg/proxy/request.go:118-125 | in every interleaving the queue is closed if and only if somebody has closed it |
| RequestChan.RequestChan.Close | pkg/proxy/request.go:118-125 | marks the queue closed, keeps its items and wakes every sleeper, once |
| RequestChan.RequestChan.PushBack | pkg/proxy/request.go:134-157 | appends one item, waking one sleeper if there is one; panics exactly on a closed queue |
| RequestChan.RequestChan.Append | pkg/proxy/request.go:155-156 | Go's append: in place on the shared array or in a larger one, the items and their order kept |
| RequestChan.RequestChan.PopOrWait | pkg/proxy/request.go:159-172 | takes the first item and clears its slot, reports the closed empty queue, or resets the slice onto the first array and sleeps; as the abstract queue does |
| RequestChan.RequestChan.PopFront | pkg/proxy/request.go:141-146 | refines the abstract pop |
| RequestChan.RequestChan.Resume | pkg/proxy/request.go:165-168 | refines the abstract wake-up |
| RequestChan.RequestChan.PopFrontAll | pkg/proxy/request.go:178-189 | delivers items in order until the callback fails; on a closed queue with a callback that never fails, all of them |
| Session.RepliesInOrder | pkg/proxy/session.go:171-193 | in every run the k-th reply encoded to a client answers its k-th queued request: replies are a prefix of requests |
| Session.QueueIsBounded | pkg/proxy/session.go:119-149 | in every run at most SessionMaxPipeline + 1 requests are queued |
| Session.WaitingWriterHasFlushed | pkg/proxy/session.go:180-191 | in every run a session writer that waits on an empty queue has flushed every reply |
| Session.NothingForgotten | pkg/proxy/session.go:153-160 | once the writer has stopped every queued request was answered, in order, or discarded behind the answered ones |
| Session.ReaderLeavesExactly | pkg/proxy/session.go:119-149 | the reader leaves if and only if decoding fails, more than SessionMaxPipeline requests are queued, or a failed dispatch ends the session; otherwise it dispatches, queues and goes on |
| Session.LeftForAReason | pkg/proxy/session.go:119-149 | so in every run a reader that has left had one of these reasons |
| Session.RespondsExactly | pkg/proxy/session.go:171-179 | a reply is encoded whenever it can be; only a failed write, or an error that ends the session, discards |
| Session.FlushesExactly | pkg/proxy/session.go:180-191 | replies are flushed if no request waits, more than half a pipeline is buffered or the time is up, and not otherwise |
| Session.AllAnswered | pkg/proxy/session.go:153-193 | in every run without a failed write and without an error that ends the session no request is discarded, and once the writer stops all were answered in order and flushed |
| EndToEnd.StepInv | pkg/proxy/session.go:119-226 | every interleaved step of a session, its backend connection and the other users of that connection keeps: each request of the session is pushed at most once, each queued one was forwarded or refused, each reply is what a completion of its own push left in the request |
| EndToEnd.RepliesAreAnswers | pkg/proxy/session.go:119-226 | in every run of session and backend together the k-th reply the client reads is the server's answer to the client's k-th request, from the place it was written at on its connection, or reports that this very request failed, was dropped or was refused by dispatch |
| EndToEnd.ResultIsOwn | pkg/proxy/session.go:212-226 | when Batch.Wait() returns, what the writer finds in the request was left there by the completion of its only push |
| EndToEnd.DecodedIsRead | pkg/proxy/session.go:212-226 | in every run, an answer to a request of the session that was decoded is what the client reads, unless dispatch refused the request after all |
| EndToEnd.RequestsAreWrittenInOrder | pkg/proxy/session.go:119-149 | in every run the server is sent the session's requests in the order the client made them |
| EndToEnd.StuckForEver | pkg/proxy/session.go:212-213 | a session whose writer waits for a push that hit the closed channel, or lies on the input of a stopped backend writer, encodes no reply in any continuation |
| Zones.QueuedLast | pkg/proxy/zones.go:32-41 | FIFO: a command queued last sees the effect of every command before it and changes none of their replies |
| Zones.Zone.Forward | pkg/proxy/zones.go:32-41 | the settled store advances by exactly this command according to its fate; the reply it will get is fixed; no earlier reply changes; a full input drops; a nil connection panics, and exactly then the batch of a request has been counted up for good |
| Zones.Zone.Wait | pkg/proxy/pool.go:241-250 | waiting returns the reply fixed when the command was forwarded, changes nothing about the future, and leaves the queue empty if the command was its last |
| Transaction.SetRedisTrx.Exec | pkg/proxy/transaction.go:90-101 | fails exactly when the zone's GET got no reply or the SET met a nil connection, and then the zone is as before; otherwise the SET is queued and the GET's text remembered; its batch stays counted up exactly when the GET was answered and the SET met the nil connection |
| Transaction.SetRedisTrx.Check | pkg/proxy/transaction.go:103-111 | succeeds exactly when the SET was executed and answered OK; the zone then holds the new value with nothing left to do |
| Transaction.SetRedisTrx.Rollback | pkg/proxy/transaction.go:113-124 | the zone ends as the SET followed by the rollback command leaves it, whatever became of either, even with the SET still on its way; panics exactly on a nil connection, and then nothing changes |
| Transaction.Transaction.Exec | pkg/proxy/transaction.go:28-45 | execed is the exact prefix of components that started; the first failing one and all later ones left their zones as they were |
| Transaction.Transaction.Commit | pkg/proxy/transaction.go:47-67 | nil exactly when every component's SET is in its store; otherwise some component could not commit |
| Transaction.Transaction.Rollback | pkg/proxy/transaction.go:69-74 | the components are rolled back in order up to the first with a nil connection, which panics; the later ones keep what they were sent; it panics exactly when there is one |
| TransactionTheorems.UndoErases | pkg/proxy/transaction.go:113-124 | rolling back gives the same store whether or not the SET had been executed |
| TransactionTheorems.RestoredReadsAsBefore | pkg/proxy/transaction.go:96-123 | where the rollback is executed the key reads as before if and only if its GET was not answered with an error (whose text would be taken for the old value); no other key changes |
| TransactionTheorems.RestoredExactly | pkg/proxy/transaction.go:114-123 | the entry itself comes back if and only if it was absent, or a non-empty string without expiry |
| TransactionTheorems.RollbackWritesErrorText | pkg/proxy/transaction.go:96-118 | the condition is needed: a key of another type comes back as the string WRONGTYPE |
| TransactionTheorems.RolledReadsAsBefore | pkg/proxy/transaction.go:90-124 | with any fates: the key of a rolled-back zone reads as before if and only if the rollback was executed and the GET had not been answered with an error, or the rollback was not executed and the SET changed nothing one can read |
| Transaction.SetEverywhere | pkg/proxy/router.go:246-275 | a SET of an unprefixed key: nil without a panic if and only if every zone could commit, and then every zone holds the new value; otherwise the error, the panic and what each zone holds are determined by the order of the zones and the fates of their commands, whichever component fails and even with other SETs still queued; the client hangs if and only if the course ended at its own zone's nil connection after the GET, and the reply left in its request is its own zone's answer to the SET, rolled back or not |
| TransactionTheorems.FailureReadsAsSuccess | pkg/proxy/router.go:165-172 | a failed dispatch returns nil if and only if some zone that was sent the SET has no connection for its rollback |
| TransactionTheorems.FailedSetReadsAsBefore | pkg/proxy/router.go:246-275 | after a failed SET every zone reads the key as before if and only if each zone that was sent the SET was rolled back by an executed command and had not answered the GET with an error, or reads alike anyway; all other keys are untouched in any case |
| TransactionTheorems.TameIsHarmless | pkg/proxy/router.go:246-275 | that condition holds, whichever component fails, when the key is a string or absent, no GET is answered with an error and rollback commands are executed |
| TransactionTheorems.TameZonesReadAsBefore | pkg/proxy/router.go:246-275 | so under those three conditions a failed SET leaves every zone reading exactly as before, at every key |
| TransactionTheorems.HangsInSomeOrder | pkg/proxy/transaction.go:90-101 | some order of visiting the zones makes the client wait for ever if and only if its own zone answers the GET and then has no connection for the SET |
| TransactionTheorems.HangsInEveryOrder | pkg/proxy/transaction.go:28-45 | every order does if and only if moreover all other zones can start |
| TransactionTheorems.HalfASet | pkg/proxy/pool.go:68-79 | both exceptions happen: a rollback dropped on a full input leaves the new value in one zone and returns an error; a rollback on a nil connection does so and returns nil; the reply in the client's request is OK both times |
| Router.PrefixedKeyNamesItsZone | pkg/proxy/router.go:285-298 | prefix + separator + rest names that prefix for every rest, if and only if the separator does not start earlier |
| Router.ZonePartExactly | pkg/proxy/router.go:285-298 | for every key the zone part ends at the first separator; without a separator there is none |
| Router.Router.GetZoneInfo | pkg/proxy/router.go:285-298 | the three results: known zone, unknown zone, or no zone part at all |
| Router.Router.DispatchGet | pkg/proxy/router.go:177-224 | the reply left in the request, the error, whether the request hangs, and the stores afterwards, for every fate of every command: a key of this zone, of no zone or of an unknown zone reads locally and writes nothing |
| Router.GetLeaves | pkg/proxy/pool.go:241-250 | what one GET leaves in its request, for every fate: the reply, none, or what was there |
| Router.ReplyExactly | pkg/proxy/router.go:177-218 | the reply a GET of a foreign key leaves in the request, for every fate of its two GETs: the local one unless it is absent or empty, then the home zone's, and the local one again when the home zone's command never went out |
| Router.FillExactly | pkg/proxy/router.go:194-217 | what is then written locally and with which expiry, for every fate: the home zone's value, or a refusal's text, unless that was absent or empty or its TTL went without a reply |
| Router.HangsExactly | pkg/proxy/pool.go:68-79 | a GET of a foreign key hangs if and only if this zone has no connection for it, or the home zone has none after this zone served an empty value or none |
| Router.HangingGet | pkg/proxy/pool.go:68-79 | a client whose home zone has no connection waits for ever, although its own zone has answered and dispatch returns nil |
| Router.FillCopiesHome | pkg/proxy/router.go:189-217 | with every command served: the client gets the local value if non-empty, else the home zone's; the home zone is asked exactly on a local miss; what is written locally is the home value, with an expiry exactly when the home TTL is positive |
| Router.ReadThroughIsTransparent | pkg/proxy/router.go:189-218 | the fill leaves the view through this router unchanged for every key; the repeated GET is answered locally and alike |
| Router.FillKeepsViews | pkg/proxy/router.go:194-217 | with any faults, a fill keeps every view if and only if the home zone did not answer the GET with an error |
| Router.ErrorTextIsCached | pkg/proxy/router.go:196-214 | the condition is needed: WRONGTYPE from the home zone is cached as a value, without expiry |
| Router.TtlText | pkg/proxy/router.go:199-205 | the TTL reply read back through its text is the home TTL |
| Router.Router.Replicate | pkg/proxy/router.go:235-244 | every other zone is sent exactly one copy, in any order; the loop ends early exactly at the first zone without a connection |
| Router.Router.SetHome | pkg/proxy/router.go:226-244 | the home zone executes the SET and fixes its reply; each zone sent a copy advances by that SET alone, the others stay as they were; it panics if and only if some zone has no connection, and the client hangs if and only if that is the home zone |
| Router.Router.CopiedEverywhere | pkg/proxy/router.go:226-244 | without a nil connection every zone is sent the SET |
| Router.Router.DispatchSet | pkg/proxy/router.go:225-276 | a key with zone part p is refused, and no zone is sent anything, if and only if p is not this zone and p is known or this zone has a name; otherwise it is written here, with the reply of this zone, and sent to every other zone up to a nil connection; a key without a zone goes everywhere, or the course says what is left; the exact condition for a recovered panic, and for a client that waits for ever, in each case |
| Router.RefusedSet | pkg/proxy/router.go:226-231 | a SET of a key of another known zone is refused and written nowhere |
| Router.HalfAReplication | pkg/proxy/router.go:165-172 | a nil connection to one zone: dispatch returns nil and the client gets its reply, its own zone holds the value and the other does not |
| Router.HangingSet | pkg/proxy/pool.go:68-79 | a SET of this zone's key hangs with dispatch returning nil when this zone has no connection; a SET of a key without a zone hangs with dispatch returning an error the client never sees when this zone has none after its GET |
| Replication.ReadThroughStages | pkg/proxy/router.go:189-218 | a GET dispatch asks the key's own zone when its zone's value is empty, then for the TTL of what it found, then writes it to its own zone, and is over in every other case |
| Replication.Delivers | pkg/proxy/pool.go:241-250 | a dispatch that waits for a GET gets the text the server answers with; without a reply it is over |
| Replication.StepKeepsInv | pkg/proxy/router.go:177-245 | every interleaved step keeps the provenance of every value in stores, queues and dispatches in progress |
| Replication.ZoneOwnership | pkg/proxy/router.go:177-245 | over every interleaving of GETs and SETs at all routers: a string held anywhere for a key of zone P was there initially, was written by a client through P's router, or is the text of an error reply |
| ReplicaOrder.StepKeepsOrder | pkg/proxy/router.go:226-244 | when SETs of a key are dispatched one at a time and no read-through fills in a value that is no longer the newest, every step keeps the writes at every zone in the owner's order; GETs of the key at any router, and fills of its newest value, are free |
| ReplicaOrder.FillKeeps | pkg/proxy/router.go:199-215 | a read-through that writes the newest value, even where a copy of it is already on its way, keeps that order |
| ReplicaOrder.CopiesMoveForward | pkg/proxy/router.go:226-244 | then a zone's copy only moves forward through the owner's write history, over any stretch of any run |
| ReplicaOrder.SettledCopyIsLastWrite | pkg/proxy/router.go:226-244 | and once its SETs are executed without loss it is the owner's last write |
| ReplicaOrder.SettledCopiesAgree | pkg/proxy/router.go:226-244 | so all settled zones agree with the owner |
| ReplicaDivergence.OverlappingSetsDiverge | pkg/proxy/router.go:225-245 | one at a time is needed: two SETs dispatched at once, and no GET at all, can leave two zones with different values for good, nothing lost |
| ReplicaStaleFill.StaleOnlyAfterTheNextSet | pkg/proxy/router.go:189-218 | the same fill is in order before the owner writes again and out of order after |
| ReplicaStaleFill.StaleFillDiverges | pkg/proxy/router.go:189-218 | no stale fill is needed too: with the SETs one at a time and nothing lost, a read-through that fetched the old value writes it over the new one for good |
| Pool.SharedBackendConn.Retain | pkg/proxy/pool.go:446-456 | panics exactly when the count is not positive |
| Pool.SharedBackendConn.Release | pkg/proxy/pool.go:426-444 | panics exactly when the count is not positive; at zero the connection leaves the pool |
| Pool.SharedBackendConnPool.Retain | pkg/proxy/pool.go:524-532 | the live entry of the address, counted once more, or a new one counted once; never panics |
| Pool.SharedBackendConnPool.Release | pkg/proxy/pool.go:426-444 | releasing a listed connection never panics |
| Pool.Zone.ChangeConn | pkg/proxy/zones.go:43-48 | the old connection is released once, the new one installed |
| Pool.PointBalances | pkg/proxy/router.go:96-99 | retaining for a zone keeps the accounts balanced: each count is the zones pointing there plus the retains nobody stands for |
| Pool.SwitchBalances | pkg/proxy/router.go:155-159 | moving a zone to another address keeps them balanced |
| Pool.DropBalances | pkg/proxy/router.go:115-119 | so does a zone giving its connection back |
| Pool.Router.FillMasters | pkg/proxy/router.go:86-94 | one zone at its master's address; every other master is retained for nobody; in any order |
| Pool.Router.FillZone | pkg/proxy/router.go:62-107 | the zone table, the error and the exact number of stray retains of every address, with the accounts balanced and every zone on the live entry of its address; each new zone has the mode and master name of its configuration |
| Pool.FillTable | pkg/proxy/router.go:69-106 | without an error every configured zone is in the table at its own address, or at the one its sentinels give for its master's name, except a current zone that was there; every other entry is as before |
| Pool.FillFails | pkg/proxy/router.go:73-85 | an error comes from a sentinel zone whose sentinels failed or know no master |
| Pool.Router.SentinelSwitch | pkg/proxy/router.go:140-163 | a completed round leaves every sentinel zone at the address its sentinels give for its master's name, in any round a zone that moves moves there, and a round that does not complete met a sentinel zone without such an address; the accounts stay balanced, nothing becomes stray and no release panics |
| Pool.Router.Close | pkg/proxy/router.go:109-122 | no release panics; what stays in the pool is exactly what nobody owned, and the pool is empty if and only if there was no such retain |
| Pool.StraysExactly | pkg/proxy/router.go:69-106 | filling in one zone leaves no stray retain of any address if and only if its sentinels know no other master and its prefix is not in the table |
| Pool.FillStraysExactly | pkg/proxy/router.go:69-106 | FillZone leaves no stray retain of any address if and only if that holds of every zone it fills in, at its turn |
| Pool.PlainFillLeavesNoStrays | pkg/proxy/router.go:69-106 | without sentinels there is no error, and no stray retain if and only if no prefix but the current one is in the table or configured twice |
| Pool.SecondMasterIsStray | pkg/proxy/router.go:86-94 | a sentinel zone whose sentinels know two masters leaves one retain of the other master's address |
| Pool.DisplacedZoneIsStray | pkg/proxy/router.go:95-100 | a plain zone under a prefix already in the table leaves the retain of the zone it displaces |
| Pool.Router.FilledTidily | pkg/proxy/router.go:62-107 | after FillZone as many retains are unowned as before, at every address, if and only if every zone it filled in was tidy |
| Pool.Live | pkg/proxy/router.go:62-163 | a router that is filled in once, follows its masters and is closed leaves the pool empty if and only if every zone was tidy when it was filled in |

## Left out

- Sockets, deadlines, dialling, the AUTH and SELECT handshakes, clocks and tickers: "the connection fails now" and "an extra flush happens now" are steps that may happen at any time.
- An io.Reader that returns bytes together with an error (fill drops them) or (0, nil): the source behind the buffer delivers either bytes or an error.
- Decoder.Decoder.Decode: returns values as copies of their bytes; that the bytes behind them stay unchanged is stated on the regions of the reader, in ReaderRuns.Run.
- The wrapping of errors with stack traces; error identity is kept. strconv is modelled by its specification on int64.
- Eventual answers around Close on a backend connection: the code does not give them.
- More than one parallel connection per zone, and databases other than 0: commands of one zone are FIFO.
- Two zones on one backend address in `Zones`, `Transaction` and `Router`: zones are taken as distinct servers there; `Pool` has sharing.
- Other writers during a transaction or a read-through: `Transaction` and `Router` run a dispatch's commands without interference; `Replication` has all interleavings of GET and SET, with dispatches of unprefixed keys reduced to arbitrary commands on keys nobody owns.
- Requests without a batch counter on a full input: PushBack dereferences it there; KeepAlive, which makes such requests, is not part of this model.
- PipelineTheorems.BlockedCanProceed: says that the steps which unblock the writer are possible, not that a scheduler takes them.
- EndToEnd.RepliesAreAnswers: is for commands that dispatch forwards at most once and one backend connection; a GET that is read through, and a SET of a key without a zone that fails, push or answer a request more than once. A nil connection is in Router.Router.DispatchGet and Router.Router.DispatchSet instead.
- Transaction.SetEverywhere: takes as given that a command lost with a broken connection takes effect, if at all, before any command sent on the next connection; so do Replication and ReplicaOrder.
- Router.FillCopiesHome: is for commands that are served, and strings; Router.FillKeepsViews covers faults and error replies.
- Replication.ZoneOwnership: does not model DEL and other commands a client may send for an owned key through any router, which the default branch forwards without a check.
- Goroutine steps, channels and the zones' interleavings are step systems on values; Go's memory model is not part of this model.
- SET arguments other than EX (NX, XX, PX): only their refusal with an error reply is covered.
- Overlap of FillZone, SentinelSwitch and Close with each other or with dispatches: `Pool` takes each as atomic, although SentinelSwitch holds only a read lock.
- Sentinel queries, the redigo client, the HTTP admin API, JSON and TOML, config checks, logging, tracing, CPU usage, off-heap slices: foreign calls or plumbing. What the sentinels answer is an input.
- opTable, Hash, getHashKey, DelayExp2, math2, bytesize, timesize and the statistics: not part of this model.
