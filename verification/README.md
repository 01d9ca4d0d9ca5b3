# rpcpio, modelled and proved in Dafny

rpcpio is gRPC over HTTP/2 for C++. Its transport (nghttp2, Asio, TLS) is foreign code; what the
repository itself contributes are codecs and small state machines whose callbacks race with one
another. This project models those and proves what a user of the library relies on.

An object of the program whose methods update its fields is a Dafny class with those fields, and each
of its methods is proved equal to a step function on values. The theorems are about those step
functions, over all inputs and over all runs, that is, over all interleavings of events. They come in
two kinds: what never happens (nothing is lost, repeated, reordered or answered twice), and what does:
messages are read, calls are answered, and with which status.

## Files

| part | files |
|---|---|
| framing: encoder, reference parse, the three incremental parsers, and their agreement | `bytes`, `framing`, `streaming_parser`, `frame_decoder`, `parser_agreement` |
| header codecs and status codes | `base64`, `percent`, `metadata`, `wire_text`, `status`, `status_map` |
| deadlines on the wire | `timeout` |
| the message pipe, both directions, end to end | `stream_queue`, `writers`, `reception`, `client_stream`, `request_pipe`, `request_end`, `request_progress`, `response_pipe`, `response_end`, `response_progress`, `stream_outcome` |
| the client channel and its calls | `ledger`, `channel`, `channel_runs`, `channel_theorems`, `channel_answers`, `channel_impl`, `call_gate`, `unary_call`, `unary_outcome`, `client_single` |
| the server's answers | `server_gate`, `server_answers`, `server_unary` |

## What turned out to need a condition

These promises do not hold of the code without a condition. The code is modelled as it is, and each
lemma named here gives the exact condition, with an input or a run on which the promise fails.

- Bidirectional calls keep feeding their parser after it refused a message
  (`src/server/bidi_streaming_call_state.cc:158-176`). The messages handed over are those of the
  stream if and only if nothing is refused, or too little follows the refusing chunk to complete the
  refused message (`Incremental.FeedingOnIsHarmless`); after every header with a reserved flag, any
  further octet brings out an empty message that nobody sent (`Incremental.FeedingOnInventsAMessage`).
  So that a handler reads only messages that were sent holds of client-streaming calls always, and of
  bidirectional calls until they refuse one (`RequestPipe.ReadsArePrefix`), which they never do while
  the client enqueues none beyond the limit (`RequestPipe.NothingIsRefused`). Everything else about
  the request pipe holds of both kinds in every run.
- A message that `Enqueue` accepts may never be sent. It is sent if and only if the task that queues it
  runs before the generator's end (`RequestEnd.SentIffQueuedInTime`). A caller can rely on all it
  enqueued before its first MarkWritesDone (`RequestEnd.AcceptedBeforeWritesDoneIsSent`), and on
  nothing it enqueues later: here is a run that ends and then accepts any message
  (`RequestEnd.AcceptedTooLate`).
- The final status of a streaming client call, once the trailers are in, stays the server's if and only
  if no local failure with another status comes before the stream's close, or its delivery is still
  pending: the first of the two to set `closed_` has the last word (`ResponseEnd.LastWord`). A deadline
  between the trailers and the close loses an OK status (`ResponseEnd.StatusIsLost`).
- A cancelled unary call may go on waiting in the channel, which answers it later with another status.
  Its handler has been posted CANCELLED by then, and the later answer is dropped
  (`CallGate.CallsAreAccountedFor`, `CallGate.CancelledWhilePending`).
- A client-streaming call keeps the last response message it receives and ignores an incomplete one:
  it delivers what a unary call would if and only if there is no message, or one with a known flag and
  nothing behind it (`SingleResponse.AgreesWithUnary`); two messages and an OK status succeed with the
  second (`SingleResponse.SecondResponseWins`).
- A server-streaming call can act on its response after the stream closed, if and only if it was not
  answered yet and its deadline, its end of request or a refused chunk still arrives; the other three
  kinds never do (`ServerGate.AfterClose`, `ServerGate.DeadlineAfterClose`).
- A server-streaming call has no deadline once its request is in: its timer is cancelled with the head,
  and its deadline does nothing from then on (`src/server/server_streaming_call_state.cc:76-84`,
  `src/server/server_streaming_call_state.cc:162-163`), so the handler may write for ever. Whatever else
  ends an open call of any kind leaves exactly one head and one status out; that deadline is the one
  exception (`ServerAnswers.EndIsAnswered`, `ServerAnswers.DeadlineIsIgnored`).
- When the connection of a ready channel breaks, the channel answers nobody
  (`ChannelAnswers.BreakageAnswersNothing`): calls under way end when their streams close. Streaming calls
  that waited for a connection which then fails are told UNAVAILABLE, not the connection's error, which is
  what unary calls and connect requests are told (`ChannelAnswers.FailureIsTold`).
- Keys under `grpc-` that the program does not know are shown to an application that may not send them
  (`WireText.SeenButNotSendable`).
- The error text of `FrameDecoder` depends on how the octets were cut into chunks, in one case: after a
  non-empty complete message with octets behind it, it says that a second message came if and only if
  some chunk ended where the message did (`Decoder.TextIsOfOctetsAndCut`, `Decoder.TextDependsOnChunking`).
  Nothing else of the decoder depends on it (`Decoder.ChunkingIsInvisible`).
- A `grpc-status` text is read as OK if and only if it holds nothing but zeros, the empty text included
  (`Metadata.OkIffOnlyZeros`).
- A deadline beyond 2562047 hours is formatted to a text that cannot be parsed back, and no shorter
  one is (`Timeout.RoundTripValue`).

## Assumptions about the transport

Octets arrive in order, in chunks of any size; trailers after them; `on_close` last on each stream.
A generator is not called after it reported its end, nor between deferring and being resumed. One
response head arrives per stream, and a connection is announced before a GOAWAY on it is received.
Without that last order a GOAWAY would leave connect waiters behind in a failed channel
(`ChannelTheorems.UnannouncedGoawayStrands`); with it none is left (`ChannelTheorems.WaitersAreNotStranded`).
All callbacks of one object run one at a time (they share a strand or executor), each as one step.

## Model

| member | source | states |
|---|---|---|
| Lpm.EncodeFrame | src/protocol/framing.cc:11-28 | Encodes exactly the payloads that fit a 32-bit length, as flag, big-endian length and payload; otherwise leaves the output alone |
| Lpm.Be32Decodes | src/protocol/framing.cc:20-25 | Reading the four length octets back gives the length, for every 32-bit length |
| Lpm.Be32Encodes | src/protocol/framing.cc:54-58 | Every four octets are the encoding of the number they are read as |
| Lpm.ParseOfWire | src/protocol/framing.cc:11-28 | Parsing the concatenated encodings of any frames within the limit gives back exactly their payloads, with nothing left over |
| Lpm.ParseConserves | src/server/client_streaming_call_state.h:52-105 | The consumed frames re-encoded, followed by the leftover, are the input octet for octet |
| Lpm.CleanStreams | src/server/client_streaming_call_state.h:52-110 | A stream is accepted between frames if and only if it is a sequence of frames within the limit and with a known flag |
| Lpm.ParseSplits | src/server/client_streaming_call_state.h:52-105 | Parsing may stop at any octet and go on from the leftover |
| Lpm.RestIsBlocked | src/server/client_streaming_call_state.h:52-105 | The leftover never hides a complete message, and keeps the verdict |
| Lpm.ParseOfPrefix | src/server/client_streaming_call_state.h:52-105 | From any prefix of what was sent only sent messages come out, in order; all of them once everything arrived; no refusal if all are acceptable |
| Lpm.LenientAgrees | src/client/server_streaming_call_state.cc:136-147 | A parser that ignores the flag agrees with one that checks it on every stream without a reserved flag |
| Incremental.ResumeIsScan | src/server/client_streaming_call_state.h:52-105 | From any state that holds a partial message, feeding a chunk is parsing everything seen so far |
| Incremental.AbsorbHeader | src/server/client_streaming_call_state.h:56-87 | One header pass of the loop, judged or incomplete, does not change what the whole feed amounts to |
| Incremental.AbsorbPayload | src/server/client_streaming_call_state.h:88-102 | One payload pass likewise |
| Incremental.ScanIsInStep | src/server/client_streaming_call_state.h:52-110 | After any octets, the state holds exactly the unparsed tail, and with a complete header the payload is not complete |
| Incremental.ScanSplits | src/server/client_streaming_call_state.h:52-105 | A refusal is final for the parse whatever follows; otherwise parsing goes on from the buffered octets |
| Incremental.ChunkingIsInvisible | src/server/client_streaming_call_state.h:52-105 | For any cutting of a stream into chunks, messages, leftover state and verdict are those of the whole stream |
| Incremental.SilentUntilComplete | src/server/client_streaming_call_state.h:68-102 | With a header held, also a refused one, the next message comes out exactly when its missing octets have arrived |
| Incremental.FeedOnFromRefusal | src/server/bidi_streaming_call_state.cc:158-176 | Feeding on is what came before the first refusal, and then whatever the refused header makes of the rest |
| Incremental.FeedingOnIsHarmless | src/server/bidi_streaming_call_state.cc:158-176 | Feeding after a refusal delivers the stream's messages if and only if nothing is refused or too few octets follow |
| Incremental.FeedingOnInventsAMessage | src/server/bidi_streaming_call_state.cc:158-176 | After any reserved flag, any further octet makes such a receiver deliver an empty message and read on from there |
| StreamingParser.StreamingFrameParser.constructor | src/server/client_streaming_call_state.h:43-50 | A new parser holds nothing |
| StreamingParser.StreamingFrameParser.TakeHeader | src/server/client_streaming_call_state.h:56-87 | The header pass consumes at least one octet and advances the feed |
| StreamingParser.StreamingFrameParser.TakePayload | src/server/client_streaming_call_state.h:88-102 | The payload pass consumes an octet or ends a refused empty message, and advances the feed |
| StreamingParser.StreamingFrameParser.Feed | src/server/client_streaming_call_state.h:52-105 | Callbacks, fields and returned status are those of the chunk step, from any state |
| Decoder.DecodeSplits | src/protocol/framing.cc:77-118 | Feeding one chunk after another leaves the fields that feeding them at once leaves |
| Decoder.ChunkingIsInvisible | src/protocol/framing.cc:77-118 | After any sequence of feeds, every field but the error text is a function of the concatenated octets |
| Decoder.DoneIsOneFrame | src/protocol/framing.cc:77-118 | The decoder is done if and only if the octets are the encoding of one frame within the limit, with flag 0 or 1: the one it holds |
| Decoder.FrameIsDone | src/protocol/framing.cc:11-75 | Decoding what EncodeFrame wrote gives back flag and payload |
| Decoder.EosVerdict | src/protocol/framing.cc:131-136 | At end of stream: done on exactly the valid encodings, still awaiting a header on exactly no octets, an error on all else |
| Decoder.AgreesWithParse | src/protocol/framing.cc:77-118 | The decoder holds a message exactly when the stream parse has one, the same one, and is done exactly on a one-message stream |
| Decoder.TextIsOfOctetsAndCut | src/protocol/framing.cc:100-136 | After any feeds and the end of the stream the error text is a function of the octets, but for one case decided by whether a chunk ended where the message did |
| Decoder.TextDependsOnChunking | src/protocol/framing.cc:100-116 | One frame and one octet more fail with the one text in one chunk and with the other in two |
| Decoder.FrameDecoder.TryParseHeader | src/protocol/framing.cc:41-75 | Judges a complete header: fields and error text |
| Decoder.FrameDecoder.Pass | src/protocol/framing.cc:80-117 | One loop pass advances the feed and makes progress unless it fails |
| Decoder.FrameDecoder.Feed | src/protocol/framing.cc:77-118 | All fields after a feed, and the error text |
| Decoder.FrameDecoder.MarkEos | src/protocol/framing.cc:131-136 | All fields after the end of the stream, and the error text |
| Decoder.FrameDecoder.Reset | src/protocol/framing.cc:120-129 | Back to the state that has seen nothing |
| ParserAgreement.ParsersAgree | src/client/bidi_streaming_call_state.cc:124-173 | On any cutting of any acceptable frames the server's parser, the client's parser and the decoder frame by frame give the same messages |
| ParserAgreement.FrameByFrame | src/protocol/framing.cc:77-129 | On any octets at all: cut at the stream parser's boundaries, the decoder yields its messages one by one, then no message, and an error exactly when the parser refuses, too long exactly when the parser says so |
| ParserAgreement.ErrorByParse | src/protocol/framing.cc:41-118 | On any octets the decoder has failed if and only if they are more than one message or refused, and by length exactly when the parse refuses the first message as too large |
| Base64.EncodeBase64 | include/rpcpio/metadata.h:53-79 | The loop computes the regrouping of octets into 6-bit letters |
| Base64.DecodeBase64 | include/rpcpio/metadata.h:82-112 | The loop with its wrapping 32-bit accumulator computes the inverse regrouping of the letters before any padding |
| Base64.ShiftIn | include/rpcpio/metadata.h:102-109 | One letter: the 32-bit accumulator stays the unbounded one modulo 2^32 and emits the same octet |
| Base64.WrapKeepsLiveBits | include/rpcpio/metadata.h:104-108 | Dropping all but 32 bits never changes an octet still to be emitted |
| Base64.EmitIsJoin | include/rpcpio/metadata.h:96-111 | Octets already emitted, left in the accumulator, never show again |
| Base64.RoundTrip | include/rpcpio/metadata.h:53-112 | Decoding an encoding gives back every byte string |
| Base64.RoundTripWithNoise | include/rpcpio/metadata.h:100-103 | The same with any padding appended and any foreign octets inserted |
| Base64.EncodedShape | include/rpcpio/metadata.h:53-79 | Only alphabet letters come out, no padding, four for every three octets rounded up |
| WireText.EncodedIsText | include/rpcpio/metadata.h:53-79 | Letter by letter, an encoding is the unpadded text of section 4 of RFC 4648: letter k is entry b of the alphabet, b the bits 6k to 6k+5 of the octets |
| Percent.PercentEncode | include/rpcpio/metadata.h:116-131 | The loop computes the octet-wise escaping |
| Percent.PercentDecode | include/rpcpio/metadata.h:134-156 | The loop replaces the well-formed escapes, left to right, and copies all else |
| Percent.RoundTrip | include/rpcpio/metadata.h:116-156 | Decoding an encoding gives back every byte string |
| Percent.EncodedIsPrintable | include/rpcpio/metadata.h:116-131 | An encoding holds only octets 0x21 to 0x7E |
| Percent.DecodedLength | include/rpcpio/metadata.h:134-156 | Decoding never lengthens, and is the identity if and only if there is no well-formed escape |
| WireText.EscapeDenotes | include/rpcpio/metadata.h:116-156 | A percent sign and any two hexadecimal digits, in either case, decode to the octet they denote, before anything else it stands for itself; every unsafe octet is escaped with its two upper-case digits |
| Metadata.MetadataToHeaders | src/protocol/metadata_codec.cc:57-71 | Adds the sendable entries, binary values in Base64, each after the entries of its key |
| Metadata.HeadersToMetadata | src/protocol/metadata_codec.cc:30-55 | Adds the longest prefix of the visible decoded entries that fits the size limit; RESOURCE_EXHAUSTED exactly when that is not all |
| Metadata.ParseGrpcStatus | src/protocol/metadata_codec.cc:73-84 | A code exactly when the text is digits that denote one; UNKNOWN otherwise, also after a minus sign |
| Metadata.BuildTrailers | src/protocol/metadata_codec.cc:137-160 | The header block for a status and metadata |
| Metadata.ExtractTrailerStatus | src/protocol/metadata_codec.cc:94-115 | The status of a header block: code, decoded message and details, or UNKNOWN without a code |
| Metadata.CodeRoundTrip | src/protocol/metadata_codec.cc:73-84 | Every status code comes back from its text |
| Metadata.OkIffOnlyZeros | src/protocol/metadata_codec.cc:73-84 | A text is read as OK if and only if it holds nothing but zeros, as the empty one does |
| Metadata.StatusRoundTrip | src/protocol/metadata_codec.cc:94-160 | Extracting from built trailers gives back every status, whatever metadata is sent along and whatever else the block held |
| Metadata.SeenAfterAddHeaders | src/protocol/metadata_codec.cc:30-71 | From a block that metadata was added to, the receiver sees what it saw before plus the sendable entries, decoded |
| Metadata.MetadataRoundTrip | src/protocol/metadata_codec.cc:30-71 | Trailing metadata comes back entry for entry, duplicates and order included, or cut at the limit, exactly when it exceeds it |
| Metadata.LimitIsKept | src/protocol/metadata_codec.cc:30-55 | A map that starts within the limit never grows beyond it |
| Metadata.FindAfterEmplace | src/protocol/metadata_codec.cc:137-160 | Inserting never hides or replaces an earlier value of the key |
| WireText.HeadersCarry | src/protocol/metadata_codec.cc:57-71 | A header block gains one entry for each sendable one: under a key that is something and then -bin as Base64 text, under any other as it is |
| WireText.BinaryKeyHasStem | include/rpcpio/metadata.h:36-38 | A key is binary if and only if it is a non-empty text and then -bin |
| WireText.SeenButNotSendable | include/rpcpio/metadata.h:41-47 | What may be sent may be seen; the converse fails exactly for valid keys under grpc- that are not the program's own; all other keys over the alphabet, but content-type and te, may be sent |
| Timeout.FormatTimeout | src/protocol/timeout.cc:16-40 | The search loop, with no wrap-around of its 64-bit sum, computes the formatted text |
| Timeout.ParseTimeout | src/protocol/timeout.cc:42-74 | The digit loop computes the parsed duration, or none |
| Timeout.ChooseFacts | src/protocol/timeout.cc:31-38 | The search always settles, so the 99999999H fallback is unreachable; it settles on the finest unit that fits, or on a coarser one that is exact while the next is not |
| Timeout.RoundTripValue | src/protocol/timeout.cc:16-74 | Formatting gives one to eight digits and a unit; parsing it gives the duration rounded up to the finest unit that fits, and fails if and only if it exceeds 2562047 hours |
| Timeout.RoundTripIsTight | src/protocol/timeout.cc:16-74 | No duration arrives shortened, nor lengthened by 1000 parts in 99999999 or more |
| Timeout.ParsedIsInRange | src/protocol/timeout.cc:42-74 | Whatever parses is an eight-digit multiple of its unit and at most 2562047 hours |
| Timeout.CanonicalForm | src/protocol/timeout.cc:31-38 | A positive parsed value re-formats to a text that parses to exactly it, in the coarsest unit that divides it |
| Timeout.RoundTripIsMonotone | src/protocol/timeout.cc:16-74 | A longer deadline never arrives as a shorter one |
| WireText.ParsedIsTimeout | src/protocol/timeout.cc:42-74 | Any text parses, and to n, if and only if it is one to eight digits and one of the six units, and n, their product in nanoseconds, fits a signed 64-bit count; leading zeros and zero included |
| StreamQueue.StreamMessageQueue.Push | src/protocol/stream_queue.cc:12-15 | Appends and wakes the reader |
| StreamQueue.StreamMessageQueue.SetEos | src/protocol/stream_queue.cc:17-20 | Marks the end and wakes the reader |
| StreamQueue.StreamMessageQueue.SetError | src/protocol/stream_queue.cc:22-25 | Records the error and wakes the reader |
| StreamQueue.StreamMessageQueue.Pop | src/protocol/stream_queue.cc:32-53 | One pass: a message, else the error, else the end, else suspension |
| StreamQueue.StepKeepsFifo | src/protocol/stream_queue.cc:12-53 | Every event keeps: messages read, then the buffer, are all messages pushed; a suspended reader has nothing to read |
| StreamQueue.QueueIsFifo | src/protocol/stream_queue.cc:12-53 | Over all runs: first in, first out, nothing lost or repeated, no wake-up lost |
| StreamQueue.EndOnlyAfterDraining | src/protocol/stream_queue.cc:32-53 | A terminal is reported only when everything pushed was read, an error before a clean end; the reader suspends if and only if there is nothing at all |
| SendQueue.PushAppends | src/client/raw_client_impls.cc:14-18 | A pushed frame goes behind what remains to be sent, also in the middle of a frame |
| SendQueue.DrainConserves | src/client/channel_impl.cc:818-839 | A pull takes octets off the front for any buffer size, loses none, and makes progress |
| SendQueue.EmptyMeansSent | src/client/channel_impl.cc:822-828 | No frame pending means nothing remains, and conversely |
| ClientWriter.RawClientWriterImpl.Enqueue | src/client/raw_client_impls.cc:8-12 | Frames the message, or refuses one that cannot be framed |
| ClientWriter.RawClientWriterImpl.Append | src/client/raw_client_impls.cc:13-18 | The posted task: queue the frame, resume the generator |
| ClientWriter.RawClientWriterImpl.MarkWritesDone | src/client/raw_client_impls.cc:21-26 | The posted task: no more writes, resume the generator |
| ClientWriter.RawClientWriterImpl.Generate | src/client/channel_impl.cc:818-839 | The generator: fills the buffer's front with the next octets, defers, or ends |
| ClientWriter.WakeUpsAreKept | src/client/channel_impl.cc:822-828 | On an open stream a deferred generator has nothing pending and no end to announce, after every step |
| ServerWriter.RawServerWriterImpl.Write | src/server/raw_server_impls.cc:13-33 | Queues a frame, or refuses: after Finish, beyond the limit (which finishes the call), or unframeable |
| ServerWriter.RawServerWriterImpl.Finish | src/server/raw_server_impls.cc:35-40 | The first Finish builds the trailers; later ones do nothing |
| ServerWriter.RawServerWriterImpl.Generate | src/server/server_streaming_call_state.cc:217-243 | The generator: octets while frames are pending, the trailers once finished, else it defers |
| ServerWriter.WakeUpsAreKept | src/server/raw_server_impls.cc:29-40 | A deferred generator has nothing pending and is not finished, after every step |
| ServerWriter.WriteStatus | src/server/raw_server_impls.cc:13-33 | The status that Write returns: OK if and only if the writer is not finished and the message is within the limit and can be framed |
| ResponseProgress.WriteOutcome | src/server/raw_server_impls.cc:13-33 | Over all runs: so long as the writer is not finished, a message within both limits is accepted and what remains grows by its frame; one beyond the limit finishes the call with RESOURCE_EXHAUSTED; nothing else changes anything |
| ResponseProgress.FinishOutcome | src/server/raw_server_impls.cc:35-40 | Over all runs: the first Finish takes effect with its status and wakes the generator, a later one changes nothing |
| ResponseProgress.NothingAfterClose | src/server/server_streaming_call_state.cc:112-123 | Over all runs from the server's close on no Write is accepted and nothing more is sent |
| Receiving.ReceiveKeepsFaith | src/server/client_streaming_call_state.cc:150-167 | Feeding a chunk keeps: pushed messages, parser fields and verdict are those of all octets fed |
| RequestPipe.SendKeepsInv | src/client/raw_client_impls.cc:8-26 | Every client event keeps: octets sent plus octets remaining are the encoding of the queued messages |
| RequestPipe.TakeKeepsInv | src/server/bidi_streaming_call_state.cc:158-176 | Every server event keeps: the octets fed are a prefix of those sent, all of them while unanswered; or a bidirectional call refused a message and its reader will end with an error |
| RequestPipe.RunKeepsInv | src/client/channel_impl.cc:818-839 | Both invariants hold in every state of every run of either kind of call |
| RequestPipe.NothingIsRefused | src/server/client_streaming_call_state.h:68-80 | While the client enqueues no message beyond the limit, nothing is refused |
| RequestPipe.ReadsArePrefix | src/server/client_streaming_call_state.cc:150-167 | Over every interleaving the handler reads a prefix of the messages that Enqueue accepted; of a bidirectional call until it refuses one |
| RequestPipe.EndMeansComplete | src/protocol/stream_queue.cc:32-53 | When the reader reports the end, it has read exactly the messages queued before the generator's end |
| RequestProgress.NothingIsLost | src/server/client_streaming_call_state.cc:150-167 | Once the half-close has been delivered to a call that listens, and without an error, the messages queued by the generator's end are read or waiting to be, all of them |
| RequestProgress.HalfCloseReachesReader | src/server/bidi_streaming_call_state.cc:158-163 | Over all runs: once the half-close was delivered, the reader's queue has its end, unless a client-streaming call had responded |
| RequestProgress.RequestIsRead | src/server/client_streaming_call_state.cc:150-167 | Progress: with the writes done and no response, abort or refusal, after enough turns of the strand, pulls, deliveries, the half-close and one read more than messages were sent, the reads are those messages, in order, each with OK, and then the end |
| RequestProgress.EnqueueOutcome | src/client/raw_client_impls.cc:8-12 | Over all runs Enqueue accepts a message if and only if it can be framed, and leaves all else as it is |
| RequestProgress.AbortIsTold | src/server/client_streaming_call_state.cc:75-148 | Over all runs a deadline, cancellation or close gives the handler's reader its status and wakes it |
| RequestProgress.RefusalIsTold | src/server/bidi_streaming_call_state.cc:165-175 | Over all runs the delivery with which a message is refused ends the reader with the refusal's status: RESOURCE_EXHAUSTED if it was too large, else INVALID_ARGUMENT |
| RequestProgress.RespondedIsDeaf | src/server/client_streaming_call_state.cc:150-151 | Over all runs a response, abort or refusal stands, and a client-streaming call that has responded takes no further request data |
| RequestEnd.EndIsFinal | src/client/channel_impl.cc:822-828 | What is enqueued after the generator's end never changes what is sent |
| RequestEnd.SentIffQueuedInTime | src/client/raw_client_impls.cc:8-19 | An accepted message is among those sent if and only if the task that queues it ran before the generator's end |
| RequestEnd.AcceptedBeforeWritesDoneIsSent | src/client/raw_client_impls.cc:8-26 | All that Enqueue accepted before the first MarkWritesDone is part of every end of the stream |
| RequestEnd.AcceptedTooLate | src/client/raw_client_impls.cc:8-26 | A run that ends and then accepts any message, which is not sent |
| RequestPipe.NoLostWakeUps | src/client/channel_impl.cc:822-828 | In every reachable state a suspended reader has nothing to read and a deferred generator nothing to send |
| ClientStream.ResponseParser.TakeHeader | src/client/server_streaming_call_state.cc:129-155 | The client's header pass, which ignores the flag |
| ClientStream.ResponseParser.TakePayload | src/client/server_streaming_call_state.cc:156-168 | The client's payload pass |
| ClientStream.ResponseParser.ParseChunk | src/client/server_streaming_call_state.cc:122-171 | The client's whole parsing loop is the chunk step of the lenient parser |
| ClientStream.StreamingClientCallState.OnData | src/client/server_streaming_call_state.cc:122-171 | A chunk: messages pushed, or the call failed as too large |
| ClientStream.StreamingClientCallState.OnTrailers | src/client/server_streaming_call_state.cc:173-180 | The trailers' status becomes the final one and ends the reader |
| ClientStream.StreamingClientCallState.OnStreamClose | src/client/server_streaming_call_state.cc:56-76 | Without trailers a close fails the call |
| ClientStream.StreamingClientCallState.Fail | src/client/server_streaming_call_state.cc:47-54 | The first local failure closes the call and is posted |
| SingleResponse.SingleResponseCallState.OnData | src/client/client_streaming_call_state.cc:114-165 | A chunk: the last completed message into the slot, or the call failed as too large |
| SingleResponse.SingleResponseCallState.OnTrailers | src/client/client_streaming_call_state.cc:167-174 | The trailers' status becomes the final one, unless closed |
| SingleResponse.SingleResponseCallState.OnStreamClose | src/client/client_streaming_call_state.cc:55-73 | Without trailers a close fails the call |
| SingleResponse.SingleResponseCallState.Fail | src/client/client_streaming_call_state.cc:47-53 | The first local failure closes the call and is posted |
| SingleResponse.StepKeepsInv | src/client/client_streaming_call_state.cc:47-174 | Every event keeps: slot, parser fields and verdict are those of all octets parsed, and the final status is accounted for |
| SingleResponse.SlotIsLastMessage | src/client/client_streaming_call_state.cc:114-165 | Over all runs the slot is the last message of the octets parsed; an OK final status is the trailers' |
| SingleResponse.AgreesWithUnary | src/client/client_streaming_call_state.cc:143-157 | On any octets the slot is what a unary call would deliver if and only if there is no message, or one with a known flag and nothing behind it |
| SingleResponse.SecondResponseWins | src/client/client_streaming_call_state.cc:154-157 | For any two acceptable frames and OK trailers the call succeeds with the second, where a unary call has no response |
| StreamOutcome.SingleOutcome | src/client/client_streaming_call_state.cc:47-174 | Over all runs, what each event leaves of an open client-streaming call: the trailers' status; after a close that, or one by error code; a local failure's; RESOURCE_EXHAUSTED exactly for a message beyond the limit; the last message in the slot |
| ResponsePipe.SendKeepsInv | src/server/raw_server_impls.cc:13-40 | Every server event keeps: octets sent plus remaining encode the messages whose Write returned OK; finished means the first Finish's trailers |
| ResponsePipe.TakeKeepsInv | src/client/server_streaming_call_state.cc:47-180 | Every client event keeps: fed octets are a prefix of those sent; the final status and the reader's end are accounted for |
| ResponsePipe.TrailersComeLast | src/server/server_streaming_call_state.cc:217-243 | Over all runs the trailers go out after every octet of every accepted Write, with the first Finish's status, and never twice |
| ResponseEnd.TrailersGoOutOnce | src/server/server_streaming_call_state.cc:217-243 | And they do go out, exactly once: on an open stream after Finish, once the transport pulled more often than octets remained, whatever happens in between |
| ResponsePipe.ReadsArePrefix | src/client/server_streaming_call_state.cc:122-171 | Over all runs the client reads a prefix of the messages whose Write returned OK |
| ResponsePipe.EndMeansComplete | src/client/server_streaming_call_state.cc:78-86 | An end or error that the reader reports without a local failure is the server's status, after all messages |
| ResponsePipe.NothingIsLost | src/client/server_streaming_call_state.cc:122-181 | Once the trailers are in without a local failure, every accepted Write is read or waiting to be |
| ResponseProgress.ResponseIsRead | src/client/server_streaming_call_state.cc:78-181 | Progress: with the server finished and nobody closing or failing the call, after enough pulls, deliveries, the trailers and one read more than messages were accepted, the reads are those messages, in order, each with OK, and then the first Finish's status, which is also the final one |
| ResponseEnd.LastWord | src/client/server_streaming_call_state.cc:47-86 | From every reachable state with the trailers in and no failure recorded, the final status stays the server's for ever if and only if the stream has closed, or no local failure with another status precedes the close, or it is not delivered yet; else it is that failure's |
| ResponseEnd.UndisturbedRun | src/client/server_streaming_call_state.cc:56-181 | A call that is not failed locally, nor closed before its trailers, does not fail, up to and after its close: its final status is the server's exactly from the trailers on |
| ResponseEnd.StatusIsLost | src/client/server_streaming_call_state.cc:47-54 | A run that loses an OK status to a local failure between the trailers and the close |
| StreamOutcome.CloseIsTold | src/client/server_streaming_call_state.cc:56-76 | Over all runs a close of an open call without trailers ends it by error code: UNKNOWN for 0, and for the others the code of the table; its reader and its final status have it |
| StreamOutcome.FailureIsTold | src/client/server_streaming_call_state.cc:47-54 | Over all runs a local failure of an open call becomes the final status and the reader's error |
| StreamOutcome.DataIsHeard | src/client/server_streaming_call_state.cc:122-171 | Over all runs DATA on an open call pushes what the octets so far hold; the call ends, with RESOURCE_EXHAUSTED, if and only if they hold a message beyond the limit |
| ChannelImplementation.ChannelImpl.Connect | src/client/channel_impl.cc:249-270 | One connect request, in each of the five states |
| ChannelImplementation.ChannelImpl.DoConnect | src/client/channel_impl.cc:272-286 | The attempt begins, or a TLS error shuts the channel down |
| ChannelImplementation.ChannelImpl.OnConnect | src/client/channel_impl.cc:292-303 | The session is up: waiters answered, queued calls submitted in order |
| ChannelImplementation.ChannelImpl.OnError | src/client/channel_impl.cc:304-314 | The connection failed, or broke |
| ChannelImplementation.ChannelImpl.OnConnected | src/client/channel_impl.cc:459-489 | Decides the state and drains the queues |
| ChannelImplementation.ChannelImpl.FailAll | src/client/channel_impl.cc:491-498 | Queued unary calls get the status; queued streaming calls run again |
| ChannelImplementation.ChannelImpl.DrainWithStatus | src/client/channel_impl.cc:500-505 | Waiters and queued calls get the status |
| ChannelImplementation.ChannelImpl.SubmitCall | src/client/channel_impl.cc:512-646 | A unary call: cancelled, queued, refused, or opened as a tracked stream |
| ChannelImplementation.ChannelImpl.SubmitStreamingCall | src/client/channel_impl.cc:689-813 | A streaming call: queued, refused, or opened |
| ChannelImplementation.ChannelImpl.OnGoaway | src/client/channel_impl.cc:419-453 | Fails what the peer will not process, forgets those streams, fails what is queued |
| ChannelImplementation.ChannelImpl.DoShutdown | src/client/channel_impl.cc:358-401 | Closes sessions, answers waiters, fails and forgets everything |
| ChannelImplementation.ChannelImpl.OnClose | src/client/channel_impl.cc:636-643 | A stream closed: forgotten, its call completed unless it already was |
| ChannelRuns.StepKeepsInv | src/client/channel_impl.cc:249-646 | Every strand step keeps the channel's invariant |
| ChannelRuns.RunKeepsInv | src/client/channel_impl.cc:249-646 | It holds in every state of every run |
| CallGate.UnaryCallCompletion.Complete | src/client/channel_impl.cc:204-217 | The first result is posted to the handler, later ones are dropped |
| CallGate.UnaryCallCompletion.Cancel | src/client/channel_impl.cc:219-223 | The user's cancellation sets the flag the channel reads and competes for the gate with CANCELLED |
| CallGate.HandlerIsPostedOnce | src/client/channel_impl.cc:192-234 | Over all runs a call's handler is posted at most once, and exactly once as soon as the channel answered or the user cancelled |
| CallGate.FirstResultStands | src/client/channel_impl.cc:204-217 | Over all runs what was posted first stands, whatever the channel or the user does later |
| CallGate.FirstComesThrough | src/client/channel_impl.cc:204-223 | While nothing was posted, the next of the two to come is what the handler gets |
| CallGate.CallsAreAccountedFor | src/client/channel_impl.cc:192-234 | Over all runs every submitted call is in one place; before the channel's answer its handler was posted if and only if the user cancelled, also while the call is pending; after it, once, with that answer or an earlier cancellation |
| CallGate.CancelledWhilePending | src/client/channel_impl.cc:219-223 | A call cancelled while pending goes on waiting with its handler already posted, and a shutdown answers it in vain |
| ChannelTheorems.CallsAreConserved | src/client/channel_impl.cc:512-646 | Over all runs every submitted unary call is in exactly one of pending, under way, answered by the channel; answered once; pending only while connecting; ready implies a session |
| ChannelTheorems.RequestsAreConserved | src/client/channel_impl.cc:249-270 | The same for connect requests and streaming handles: waiting or answered, answered once |
| ChannelTheorems.CompletionsAreFinal | src/client/channel_impl.cc:512-646 | Over all runs no answer of the channel to a unary call is withdrawn, changed or repeated |
| ChannelTheorems.WaitersAreNotStranded | src/client/channel_impl.cc:292-319 | Over all runs in which a connection is announced before a GOAWAY on it, connect requests wait only while the channel connects |
| ChannelTheorems.OnlyEarlyGoawayStrandsWaiters | src/client/channel_impl.cc:419-453 | Of all steps only a GOAWAY while connecting, with waiters, makes them wait outside the connecting state |
| ChannelTheorems.UnannouncedGoawayStrands | src/client/channel_impl.cc:419-453 | A run in the other order, which leaves a waiter behind in a failed channel |
| ChannelTheorems.CallAfterShutdown | src/client/channel_impl.cc:521-532 | A call on a shut-down channel is answered at once with its status, or with its own cancellation |
| ChannelTheorems.ConnectAfterShutdown | src/client/channel_impl.cc:252-255 | So is a connect request |
| ChannelTheorems.StreamingAfterShutdown | src/client/channel_impl.cc:689-813 | So is a streaming call |
| ChannelTheorems.ShutdownIsTotal | src/client/channel_impl.cc:358-401 | In a shut-down channel nothing waits, nothing is under way, no stream is tracked, everything is answered |
| ChannelTheorems.ShutdownIsForEver | src/client/channel_impl.cc:276-286 | From a shutdown or TLS error on, for ever: the state, its status, empty queues and maps, earlier answers; every later request gets that status |
| ChannelTheorems.GoawayPartition | src/client/channel_impl.cc:419-457 | After any GOAWAYs the tracked streams are exactly those at most the lowest last_stream_id, less those that closed |
| ChannelTheorems.GoawayCompletesWhatItCutsOff | src/client/channel_impl.cc:430-440 | Each call under way above it completes once with UNAVAILABLE; those at or below stay under way |
| ChannelTheorems.NothingOpensAfterGoaway | src/client/channel_impl.cc:547-551 | After a GOAWAY no stream opens |
| ChannelAnswers.CallOnReady | src/client/channel_impl.cc:536-614 | A new call on a ready channel goes under way on a stream id never used, unanswered; or it is answered by what kept it from it: DEADLINE_EXCEEDED, RESOURCE_EXHAUSTED or the transport's error |
| ChannelAnswers.CallOnFailed | src/client/channel_impl.cc:512-535 | A new call on a failed channel is answered UNAVAILABLE and opens nothing |
| ChannelAnswers.CallOfCancelled | src/client/channel_impl.cc:512-520 | A call its user cancelled before is answered CANCELLED in every state |
| ChannelAnswers.CallWaits | src/client/channel_impl.cc:521-535 | A new call on an idle or connecting channel waits, unanswered, behind those that do, and the channel connects |
| ChannelAnswers.ConnectOnDecided | src/client/channel_impl.cc:249-270 | A connect request is answered OK on a ready channel and UNAVAILABLE on a failed one |
| ChannelAnswers.ConnectWaits | src/client/channel_impl.cc:249-270 | Before that it waits, and the channel connects |
| ChannelAnswers.FirstRequestWithoutTls | src/client/channel_impl.cc:272-286 | The first request of any kind, on a channel whose TLS cannot be configured, is answered with that error, which shuts the channel down |
| ChannelAnswers.StreamingOnDecided | src/client/channel_impl.cc:689-813 | A new streaming call gets UNAVAILABLE on a failed channel; on a ready one its handle, on a stream id never used, or what kept it from it |
| ChannelAnswers.ConnectedSettlesAll | src/client/channel_impl.cc:459-489 | When the session is up every waiter is told OK, every queued unary call is under way on a stream, or answered by its own attempt or its cancellation, and every queued streaming call has its stream or what kept it from one |
| ChannelAnswers.FailureIsTold | src/client/channel_impl.cc:304-314 | When the connection fails every waiter and queued unary call is told its error, every queued streaming call UNAVAILABLE |
| ChannelAnswers.BreakageAnswersNothing | src/client/channel_impl.cc:304-314 | When the connection of a ready channel breaks, the channel's state and all its answers stay as they are |
| ChannelAnswers.AttemptEnds | src/client/channel_impl.cc:459-464 | The connection attempt is over once it is decided; a shutdown gives up attempt and session |
| ChannelAnswers.LiveCallEnds | src/client/channel_impl.cc:636-643 | A call under way is answered by its own completion or by its stream's close, whichever comes first, with that status |
| ChannelAnswers.ShutdownIsTold | src/client/channel_impl.cc:358-401 | A shutdown answers every waiter, every unary call that waits or is under way and every queued streaming call with CANCELLED |
| ChannelAnswers.GoawayTells | src/client/channel_impl.cc:441-453 | A GOAWAY tells exactly the streaming calls above its stream id to fail, with UNAVAILABLE, and forgets their streams |
| ChannelAnswers.ShutdownTells | src/client/channel_impl.cc:358-401 | A shutdown tells all streaming calls to fail, with CANCELLED, and forgets their streams |
| ChannelAnswers.NothingElseTells | src/client/channel_impl.cc:249-646 | No other event makes the channel fail a streaming call |
| UnaryCall.ClientCallState.Complete | src/client/call_state.cc:41-48 | The first result is posted, later ones dropped |
| UnaryCall.ClientCallState.Attach | src/client/call_state.cc:71-121 | The response head: refused, trailers-only, or listened to |
| UnaryCall.ClientCallState.OnData | src/client/call_state.cc:123-146 | A chunk or the end of DATA: decoded, or the call failed |
| UnaryCall.ClientCallState.OnTrailers | src/client/call_state.cc:148-190 | The result: the status, and the response if the decoder is done |
| UnaryCall.ClientCallState.OnStreamClose | src/client/call_state.cc:58-69 | Without a result so far a close completes the call |
| UnaryCall.StepKeepsInv | src/client/call_state.cc:41-190 | Every event keeps the gate, and a completed call's result; a close completes |
| UnaryCall.CompletedOnce | src/client/call_state.cc:41-69 | For every order of events the callback is posted at most once, and exactly once from the close on |
| UnaryCall.ResultIsFinal | src/client/call_state.cc:41-48 | Over all runs the posted result stands |
| UnaryCall.OkMeansOneFrame | src/client/call_state.cc:123-190 | An OK result without decompression has a response if and only if the DATA before it was exactly one acceptable frame, whose payload it then is |
| UnaryOutcome.HeadOutcome | src/client/call_state.cc:71-121 | Over all runs, the response head of a call without a result: not gRPC or not 200 fails it by the HTTP table, an unknown encoding with UNIMPLEMENTED, a trailers-only head ends it with its status; otherwise the call listens, with nothing posted |
| UnaryOutcome.DataOutcome | src/client/call_state.cc:123-146 | Over all runs DATA keeps the call going if and only if the octets so far may be one acceptable message and no more; otherwise it fails at once, with RESOURCE_EXHAUSTED if and only if the parse finds that message too large, else INTERNAL |
| UnaryOutcome.DataEndOutcome | src/client/call_state.cc:128-137 | The end of DATA fails the call, with INTERNAL, unless there was no octet or exactly one acceptable frame |
| UnaryOutcome.TrailersOutcome | src/client/call_state.cc:148-190 | Over all runs trailers give a listening call exactly one result: their status without a response if it is not OK; INTERNAL if decompression fails; else OK, with a response if and only if the DATA was one acceptable frame, which is its payload or what that inflates to |
| UnaryOutcome.CloseOutcome | src/client/call_state.cc:58-69 | Over all runs a close before a result fails the call by error code: UNKNOWN for 0, and for the others the code of the table |
| UnaryOutcome.LocalOutcome | src/client/call_state.cc:25-56 | Over all runs a deadline gives a call without a result DEADLINE_EXCEEDED, a cancellation CANCELLED, a failure from the channel its status |
| UnaryOutcome.CallSucceeds | src/client/call_state.cc:71-190 | Any acceptable frame, however its octets are cut, between a welcome head and OK trailers: the one result is OK with that frame's payload |
| ServerGate.SingleResponseCall.SendError | src/server/call_state.cc:217-230 | At most one answer: a status head unless already answered |
| ServerGate.SingleResponseCall.SendResponse | src/server/call_state.cc:237-312 | The handler's answer: a head with a generator, or a status head |
| ServerGate.SingleResponseCall.Cancel | src/server/call_state.cc:104-114 | Answers unless closed or answered |
| ServerGate.SingleResponseCall.OnClose | src/server/call_state.cc:116-127 | Seals the gate |
| ServerGate.SingleResponseCall.OnDeadline | src/server/call_state.cc:86-93 | An unanswered call is answered with an error |
| ServerGate.SingleResponseCall.OnData | src/server/client_streaming_call_state.cc:150-167 | A refused chunk answers with an error |
| ServerGate.SingleResponseCall.OnRequestEnd | src/server/call_state.cc:147-202 | An incomplete request answers with an error |
| ServerGate.WriterCall.Cancel | src/server/bidi_streaming_call_state.cc:126-141 | Finishes the writer, or answers with an error before the head |
| ServerGate.WriterCall.OnClose | src/server/server_streaming_call_state.cc:112-123 | Closes and finishes, but does not mark the call answered |
| ServerGate.WriterCall.OnRequestEnd | src/server/server_streaming_call_state.cc:142-186 | Sends the head or an error, unless answered |
| ServerGate.WriterCall.OnDataUntilAnswered | src/server/server_streaming_call_state.cc:125-140 | A refused chunk answers with an error, unless answered |
| ServerGate.WriterCall.OnDataAlways | src/server/bidi_streaming_call_state.cc:158-176 | A refused chunk finishes the writer |
| ServerGate.StepKeepsConsistent | src/server/bidi_streaming_call_state.cc:126-193 | Every event of every kind of call keeps the counts of heads and final statuses |
| ServerGate.AnswersOnce | src/server/server_streaming_call_state.cc:96-203 | For all four kinds and every order of events: at most one response head and at most one final status |
| ServerGate.ReturnIsAnswered | src/server/call_state.cc:237-312 | On an open stream, after the handler's return and a drained generator: exactly one of each |
| ServerAnswers.EndIsAnswered | src/server/bidi_streaming_call_state.cc:77-88 | For all four kinds, from every reachable state on an open stream: after a deadline, a cancellation, a refused start, refused data or a refused end where the kind looks at them, the handler's return, Finish, or a message beyond the limit, one drained generator later exactly one head and one status are out, except after the deadline of a server-streaming call whose response is under way; everything but that finishes the writer of a call that has one and has responded |
| ServerAnswers.DeadlineIsIgnored | src/server/server_streaming_call_state.cc:76-84 | A run of a server-streaming call whose deadline changes nothing, and no status goes out |
| ServerAnswers.HeadGoesOut | src/server/server_streaming_call_state.cc:142-166 | Over all runs the head goes out with the accepted start of a bidirectional call, the accepted end of a server-streaming request, or the handler's response, if unanswered; any other acceptable event of the request does nothing to the response |
| ServerGate.CloseSeals | src/server/call_state.cc:116-127 | Over all runs a closed call is sealed by the flag its kind checks |
| ServerGate.AfterClose | src/server/server_streaming_call_state.cc:112-140 | A response operation follows the close if and only if a server-streaming call was unanswered and its deadline, end or a refused chunk arrives |
| ServerGate.DeadlineAfterClose | src/server/server_streaming_call_state.cc:112-123 | A server-streaming call that closes at once and then meets its deadline does act on its response |
| ServerUnary.ServerCallState.OnData | src/server/call_state.cc:129-145 | A chunk is decoded, or answered with an error; an empty one ends the request |
| ServerUnary.ServerCallState.OnRequestEnd | src/server/call_state.cc:147-202 | Starts the handler with the request, or answers with an error: malformed, incomplete or not inflatable |
| ServerUnary.GateRuns | src/server/call_state.cc:104-230 | A unary call's gate, driven by its decoder, runs as the gate of all calls: so it too answers at most once |
| ServerUnary.HandlerGetsTheRequest | src/server/call_state.cc:147-202 | Over all runs the handler is started at most once, and only if the DATA was exactly one acceptable frame, with its payload unless that was compressed |
| ServerUnary.EndStartsHandler | src/server/call_state.cc:147-202 | At the end of an unanswered request the handler starts if and only if the DATA was one acceptable frame that inflates, if compressed; else the call is answered with an error |
| ServerUnary.DataOutcome | src/server/call_state.cc:129-145 | Over all runs DATA that may be one acceptable message is taken in; any other is answered at once, with a status head |
| ServerUnary.RequestSucceeds | src/server/call_state.cc:129-202 | Any acceptable frame, however its octets are cut, and the end of the request: the handler starts with its payload, or what that inflates to |

## Left out

- nghttp2, Asio, TLS, sockets and timers: they are events in any order, under the assumptions above.
- gzip: whether a payload inflates, and to what, is a parameter of a unary call's trailers and of the end of its request; the server's compression choices are not modelled.
- Server start, port selection, threads and the shutdown of the server, which do not touch the modelled state machines.
- The stream reset of a cancelled unary call (`UnaryCallControl`): a cancelled call is not submitted, and one under way completes by an event of its own.
- The handler's gate carries the status of a result, not its response.
- The tables from socket, TLS and transport library errors to status codes: the status they map to is a parameter.
- Protobuf, the typed wrappers, the code generator, the examples and peer identity.
- The second `ExtractTrailerStatus`, on an application's own map, which has the same shape as the first.
- The response-head checks of the streaming calls, which repeat those of the unary call, and their trailers-only answers.
- The response slot of a client-streaming call is written once per chunk, with the last message of the chunk; the program writes it once per message.
- The client's streaming call states each carry a copy of one parsing loop; here they share it as one object.
- User callbacks that call back into the channel while one of its loops invokes them: the callbacks are recorded, in order, as answers.
- Loops over the active streams visit a map in no particular order, and complete all that they visit in one step.
- Request headers, deadline computation and capacity reservations; error texts that quote a frame error, a socket message or an encoding name have a fixed wording or none.
- The two server gate classes take what the decoder or the writer's limit decided as a boolean (for unary calls the decoder is put in front), and record what they do to the response object; the octets are in the pipe models.
- Shifts and masks are written as the divisions and remainders they denote, strings as sequences of octets.
- ServerGate.AfterClose: supposes that the call was started before its stream closes, as Start is what registers the close callback.
- RequestPipe.ReadsArePrefix: of bidirectional calls only until they refuse a message, because feeding on after it delivers what was not sent; see above.
- ChannelTheorems.GoawayPartition: supposes that the connection is not announced after a GOAWAY on it.
- ChannelTheorems.WaitersAreNotStranded: supposes that a connection is announced before a GOAWAY on it.
- ServerAnswers.EndIsAnswered: counts the heads and statuses that go out, not which status they carry; supposes that a handler with a writer, and the timer and data of a bidirectional call, start once the call has responded, as Start sets them up.
- RequestProgress.RequestIsRead: of calls whose messages are all within the limit; what a refusal does is RequestProgress.RefusalIsTold.
- ServerUnary.HandlerGetsTheRequest: supposes that a request ends once and carries no DATA afterwards.
- UnaryCall.CompletedOnce: supposes one response head per stream.
- ChannelImplementation.ChannelImpl: the methods carry the model state as a ghost argument, because it also remembers every stream ever opened, which the program forgets.
