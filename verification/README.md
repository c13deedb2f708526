# solvetls, modelled and proved

solvetls is a server that answers one request per connection with a report of what the client's
handshake and HTTP frames looked like. This project models its hard parts in Dafny and proves what they
promise, for every input and every run.

- **HTTP/2 session.** `SessionSpec` says what every step does to the session's state; `Sessions` is the
  session object with its loops, proved to do exactly that. `SessionInvariant` and `SessionSteps` show what
  every frame keeps, `SessionRuns` and `SessionTheorems` what holds over whole runs, `FlowControl` keeps the
  send windows and the client's HPACK table as a ledger, `Responses` follows a response to its last frame, and
  `SessionLife` covers reads, responses and closes together. `Tallies` and `Requests` read the captured request,
  its counters and the session's own answers off the frames, `Failures` says for every frame whether it ends the
  session and with which code, and `AfterFailure` asks what a failed session would do if it went on reading.
- **h2.** The library is not part of the model. `H2` is a small stand-in over sections 5.1, 6.5, 6.8 and 6.9
  of RFC 9113. Everything else h2 and hpack decide (which frames to refuse and with which code,
  given the connection and all captured frames, what a header block decodes to, when to return flow-control
  credit, which further field rules to apply) is a parameter `Env`, and every result holds for all of them.
- **Settings and HPACK.** `Adapter`, `Hpack` and `RequestDecoders`: replaying SETTINGS in wire order,
  collapsing table size updates, and the budget on decoded fields.
- **Frames.** `Frames` defines what a payload means and how it is rendered, `FrameReaders` holds the cursor
  and its thirteen parsers, `FrameProofs` shows that they accept exactly the renderings, and `FrameErrors` which
  error the others get.
- **Incremental readers.** `Http1Head` and `ClientHellos`: the answer is a function of the octets, not of how
  they were cut.
- **Lifecycle.** `Lifecycle`: the server's coroutines as steps that interleave at every await. `Servers`: the
  server object, one method for each stretch of code between two awaits.
- **Small algorithms.** `Decimal`, `HttpList` and `Authority`, the latter two with grammars they are compared to
  (`HttpListGrammar`, `AuthorityGrammar`).

The transport appears as a function from read number to chunk (an empty chunk is the end of the stream), and
what is written as a list of frames. A raised exception is a returned value together with the state it leaves.
Tasks and listeners are numbered. Where a Python object updates its fields, the Dafny class does too, and its
methods are proved against functions on the state; the theorems are about those functions.

Three places where the code decides more than its comments say:

- `close` sends at most one GOAWAY, but only because nothing is read after a failure: runs end with their first
  error, as the server's do. `AfterFailure.ReadingOnIsHarmlessIffUnprovoked` says for exactly which further
  frames the promise would hold all the same, and `PingProvokes` shows one for which it would not.
- The branch of the frame handler for an h2 error without queued output is never taken: every refusal queues a
  GOAWAY first, and an error raised by event handling has closed the session already.
- A status between 100 and 199 empties the response and then sets END_STREAM on its head, which h2 refuses.

## Model

| member | source | states |
|---|---|---|
| SessionRuns.ChunkingDoesNotMatter | solvetls/http2/session.py:97-109 | Two ways of delivering one byte stream within the capture limit (any octets with the preface, then any non-empty chunks): if one raises nothing, the other gives the same frames, leftover buffer, session state and output; if both fail, they do so with the same code, state and output; a run stops for a cancellation exactly when one of its cuts falls after the cancelling frame, and then on the way to where the other stops |
| SessionTheorems.DeliveryDoesNotMatter | solvetls/connection.py:131-140 | The same for the whole connection, the reads that look for the preface included: for any two splits of one stream into non-empty chunks there is a session in both or in neither, exactly if the stream decides the preface, and then they agree |
| SessionRuns.ChunksAreOne | solvetls/http2/session.py:173-213 | From any state between reads, chunked reads give what one buffer with all the octets gives, by induction over the chunks; they are stopped by a cancellation if and only if a cut falls after it with nothing failing before, and then in the state of the octets up to that cut |
| SessionLife.ExchangeIsComplete | solvetls/connection.py:77-81 | From the first read to the last frame, for every peer: preface, request, response and close end within the capture budget. If the peer leaves before its preface is decided, nothing at all is written; otherwise, and only then, our SETTINGS come first and there is exactly one GOAWAY, with the code of the failure if there was one, and else the last frame, naming the request’s stream. If nothing was raised, a head with the status went out, the request’s stream carries exactly the content (nothing for 204 and 304), with one END_STREAM on its last frame and every DATA frame within the windows of its moment, and every octet read after the preface is captured (statuses 100 to 199 are the subject of `InformationalIsRefused`) |
| SessionLife.EarlyLeaverSeesNothing | solvetls/connection.py:260-265 | A client that leaves after a proper part of the preface, or before saying anything, sees neither SETTINGS nor GOAWAY |
| SessionLife.ServeSpoken | solvetls/http2/session.py:97-213 | Over every sequence of reads and responses, the session keeps its invariant and its ledger until something is raised, and afterwards either still does or has failed with one GOAWAY; unless it failed, every octet it read, also while responding, is captured or buffered |
| SessionRuns.DrainAppend | solvetls/http2/session.py:181-211 | Cutting frames off a longer buffer continues exactly where cutting the shorter one stopped, failures included |
| SessionRuns.ChunkKeeps | solvetls/http2/session.py:173-213 | One read either keeps the session invariant, loses no octet and leaves no complete frame in the buffer, or ends with one GOAWAY carrying the code raised, or ends with a reset |
| SessionRuns.DrainOnward | solvetls/http2/session.py:322-396 | Cancellation and readiness are final and the accepted request is never replaced by a later stream |
| SessionTheorems.EveryRun | solvetls/http2/session.py:97-213 | Every run of `initialize` and reads ends in one of three ways: nothing raised with the invariant, the flow-control ledger and all octets intact; one GOAWAY with the code of the failure, which is 1 for a wrong preface; or a reset, because the request was cancelled or the stream ended |
| SessionLife.CaptureIsLossless | solvetls/http2/session.py:137-213 | In every run of reads and responses that has not failed, the octets after the preface, with those read while a response was being sent, are the concatenated raw frames and the buffer; there are at most 2097152 octets and 4096 frames, and their SETTINGS and ORIGIN entries are covered by a count of at most 1024 |
| SessionLife.ConnectionsOpenWithSettings | solvetls/http2/session.py:218-223 | In every run of reads and responses that has not failed, the first captured frame is a SETTINGS frame that is not an acknowledgement and could be read, and its entries are the recorded ones |
| SessionLife.BlocksAreContiguous | solvetls/http2/session.py:224-239 | In every run of reads and responses that has not failed, only CONTINUATION on the same stream follows an open header block and none appears outside one; the counter is the length of the open block, at most 65536, and zero without one |
| SessionLife.PrioritiesAreBounded | solvetls/http2/session.py:264-333 | In every run of reads and responses that has not failed, remembered idle streams are odd and above every opened one, and with the open streams there are at most 100 |
| SessionTheorems.CountedUpdatesNeverFail | solvetls/http2/session.py:264-275 | A PRIORITY_UPDATE for a stream that is open or already remembered never fails and never changes the session |
| SessionInvariant.RefusedMidway | solvetls/http2/session.py:322-332 | Refusing a further stream leaves the accepted request, the number of open streams and the remaining idle streams alone |
| SessionLife.FinishedRequestHasItsLength | solvetls/http2/session.py:341-391 | In every run of reads and responses, a request that ran to the end of its stream has exactly the body octets, in the captured DATA frames, that each of its Content-Length fields denotes, and at most 1048576 |
| SessionTheorems.RequestIsAwaited | solvetls/http2/session.py:111-114 | Waiting for a request ends against every peer within the capture budget, with every octet accounted for; it reads on exactly while the request cannot be answered, so the read that ends the request’s stream is the last; nothing is raised if and only if the request can be answered (an expectation that cannot be met, CONNECT, or complete with the declared length) and was not cancelled, and then nothing has been sent on its stream; a reset means that the request was cancelled or the stream ended |
| SessionLife.OneGoaway | solvetls/http2/session.py:146-171 | Over every sequence of reads, responses and closes at most one GOAWAY is written: the code of the protocol failure if one closed the session, never replaced by a later close, and otherwise the code of the first close |
| AfterFailure.ReadingOnIsHarmlessIffUnprovoked | solvetls/http2/session.py:291-307 | What that promise rests on: if a session that failed in some run read another frame, it would stay at one GOAWAY for every behaviour of h2 if and only if the frame is one the session keeps to itself, or SETTINGS with no faulty entry and not too many table sizes |
| AfterFailure.UnprovokedStaysQuiet | solvetls/http2/session.py:240-281 | Such a frame never makes the failed session say GOAWAY again, however h2 behaves and whatever code closes it |
| AfterFailure.ProvokedSaysItTwice | solvetls/http2/session.py:146-159 | Any other frame does so for some h2: `close` flushes the second GOAWAY that h2 queued |
| AfterFailure.PingProvokes | solvetls/http2/session.py:291-307 | The plainest such frame is a PING once the client’s SETTINGS have been seen |
| AfterFailure.FailedSessionIsReached | solvetls/http2/session.py:249-259 | Such sessions exist: preface, empty SETTINGS and the reset of a stream never opened lead to one, whatever h2 does |
| SessionTheorems.ReadPreface | solvetls/connection.py:131-140 | Within 25 reads the octets of all reads are returned once the preface is there or impossible, whatever follows cannot change which, and nothing is returned exactly if the peer leaves before |
| SessionSteps.FrameTaken | solvetls/http2/session.py:189-211 | One frame off the wire keeps the invariant and is captured verbatim, or the session ends with exactly one GOAWAY with the code raised; after the request is accepted, only PRIORITY_UPDATE can add to the streams that count |
| SessionSteps.FrameProcessed | solvetls/http2/session.py:215-311 | Whatever a captured frame is, the steps on it keep output, settings, idle streams, header block and body consistent, or end with one GOAWAY |
| SessionSteps.BlockChecked | solvetls/http2/session.py:224-239 | The block check accepts only frames that continue the open block, keeps the counter equal to the block read off the frames, and fails with one GOAWAY otherwise |
| SessionSteps.FrameForwarded | solvetls/http2/session.py:291-308 | Every frame handed to h2 ends with its events handled and everything flushed, or with h2’s own GOAWAY sent once |
| SessionSteps.SettingsForwarded | solvetls/http2/session.py:291-293 | A SETTINGS frame keeps every stream’s phase and the session invariant, or ends with one GOAWAY |
| SessionSteps.PriorityUpdated | solvetls/http2/session.py:264-275 | PRIORITY_UPDATE keeps the idle set odd, above the highest stream and within the limit, or ends with one GOAWAY |
| SessionSteps.ParsedIsTyped | solvetls/http2/session.py:194-205 | A frame from the forensic parser has the payload its header announces or carries its parse error, its entries fit the remaining budget, and its raw octets are the wire octets |
| SessionSteps.FirstFrameChecked | solvetls/http2/session.py:218-223 | Only a SETTINGS frame that is not an acknowledgement passes as the first one, later frames leave what it recorded alone, the session stays as consistent as it was, or it ends with one GOAWAY |
| SessionSteps.Dispatched | solvetls/http2/session.py:240-308 | Whatever is done with a frame (ignored, refused, counted or handed to h2), output, settings, idle streams, block and body stay consistent, or the session ends with one GOAWAY |
| SessionSteps.AnswerHandled | solvetls/http2/session.py:322-396 | Handling the events of any of the five answers of h2 keeps the invariant, or ends with one GOAWAY with the code raised; no reset and no internal error comes out of it |
| SessionInvariant.RequestMidway | solvetls/http2/session.py:322-340 | The first request is accepted with the idle streams within the limit, or the session ends with one GOAWAY |
| SessionInvariant.AcceptedMidway | solvetls/http2/session.py:341-365 | An accepted request has valid and bounded declared lengths, an empty body and a stream open for the answer, also when 100 (Continue) is sent |
| SessionInvariant.CloseEnds | solvetls/http2/session.py:146-165 | A failure in a session that has said nothing yet leaves exactly one GOAWAY, with its code, and nothing queued |
| SessionInvariant.FlushCleans | solvetls/http2/session.py:156-159 | After a flush nothing is queued and still no GOAWAY has been said |
| SessionInvariant.HandledOpens | solvetls/http2/session.py:322-365 | Opening a stream keeps the invariant: it forgets lower idle streams, refuses all but the first request, and accepts the first one with its declared length and an empty body |
| SessionInvariant.HandledCarries | solvetls/http2/session.py:369-391 | DATA counts toward the request of its stream only, never beyond 1048576, and the end of the stream is accepted only at the declared length |
| SessionInvariant.HandledTrails | solvetls/http2/session.py:366-391 | Trailers end a stream only with the declared number of body octets and do not change the declaration |
| SessionInvariant.HandledResets | solvetls/http2/session.py:392-395 | A reset cancels the request of its stream only, and makes room among the open streams |
| SessionLife.RequestIsReadyWhenComplete | solvetls/http2/session.py:359-391 | In every run of reads and responses that has neither failed nor been cancelled, the request is ready to be answered if and only if its stream has ended, an expectation cannot be met, or it is CONNECT |
| Failures.EveryFrameIsJudged | solvetls/http2/session.py:173-311 | When and with which code a session fails: after every run that has not failed, for every further frame, it fails if and only if the frame breaks one of a list of rules stated over the frames before it and in plain numbers (octets in all, frame length, entries, frames, first frame, open header block and its size, parse error, PUSH_PROMISE, reset of an idle stream, PRIORITY_UPDATE, h2’s refusal, invalid fields, declared and received lengths), with the code of the first rule broken |
| Failures.FrameIsJudged | solvetls/http2/session.py:189-211 | The same for one frame off the wire and any session in order |
| Failures.AnswerRaises | solvetls/http2/session.py:322-391 | What h2 reports is judged by the fields, the Content-Length values as numbers, and the body octets in the captured frames, and nothing else makes the session fail |
| Requests.RequestIsTheFirstBlock | solvetls/http2/session.py:341-343 | In every run that has not failed, there is a request exactly if a header block is complete; its stream and fields are those of the first block of the connection, put together from HEADERS and CONTINUATION, and no later one replaces it |
| Requests.TrailersAreCaptured | solvetls/http2/session.py:366-368 | In every run that has neither failed nor been cancelled, the captured trailers are the fields of the later block on the request’s stream, and there are none without one |
| Requests.ContinueIsSentOnce | solvetls/http2/session.py:353-365 | In every run that has not failed, the informational heads written are one 100 (Continue) on the request’s stream if the request asks for it, can be given it and did not end with its head, and none otherwise |
| Requests.OnlyTheseCancel | solvetls/http2/session.py:276-281 | In every run that has not failed, the request is cancelled if and only if some GOAWAY carried a non-zero code or the request’s stream was reset |
| Requests.OtherStreamsAreRefused | solvetls/http2/session.py:330-332 | In every run that has not failed, every stream opened besides the request’s has been reset with REFUSED_STREAM exactly once, and the request never |
| Requests.IdleStreamsAreNamed | solvetls/http2/session.py:264-329 | In every run that has not failed, the idle streams remembered are exactly those PRIORITY_UPDATE frames named above the last stream opened, and with the open ones there are at most 100 |
| Requests.BodyIsCredited | solvetls/http2/session.py:369-379 | In every run that has not failed, as long as the request’s stream is not reset, the lengths acknowledged on it are the lengths of its DATA frames, padding included, in order, and the octets counted are those its frames carry |
| Responses.ResponseIsDelivered | solvetls/http2/session.py:116-144 | Against every peer the response ends after at most one read per octet of capture budget; however it ends, the DATA frames on its stream are exactly the ones sent here, each within the stream window, the connection window and the frame size of its moment; if nothing is raised, one head with the status came first, the frames concatenate to the content itself (to nothing for 204, 304 and 1xx), and END_STREAM is set exactly once, on the last frame; otherwise the peer broke the protocol, cancelled the request or ended its stream, and h2 refused nothing |
| Responses.ResponseCompletesUnlessAReadFails | solvetls/http2/session.py:130-144 | When it completes: every read of a response is made with the client’s windows used up, as its own frames count them, and the response ends well if and only if none of these reads raises |
| Responses.AllowedResponseNeedsNoRead | solvetls/http2/session.py:132-144 | A body the client’s frames already allow goes out without a single read, whoever the peer is |
| Responses.BodyDelivered | solvetls/http2/session.py:129-144 | The same for the body from any offset, by induction over the offset and the capture budget |
| Responses.InformationalIsRefused | solvetls/http2/session.py:116-128 | A response with a 1xx status is refused by h2 before anything is written |
| FlowControl.FrameKeepsLedger | solvetls/http2/session.py:182-211 | Over every frame, each send window equals what the client granted (initial window, WINDOW_UPDATE, SETTINGS changes) minus what was sent, the connection window is never negative, the client’s HPACK table lags by the queued sizes only, and receiving sends no body and ends no stream |
| FlowControl.MovesKeepBalance | solvetls/http2/session.py:291-308 | Any frame that moves windows as sections 6.9.1 and 6.9.2 of RFC 9113 say keeps granted minus sent equal to every live window |
| Sessions.Http2Session.Initialize | solvetls/http2/session.py:97-109 | Our SETTINGS are written before anything is read; the session is then in order with every octet after the preface accounted for, or failed with one GOAWAY, or reset; a second call is refused and changes nothing |
| Sessions.Http2Session.Receive | solvetls/http2/session.py:173-213 | One read has the effect of the stream semantics; a session in order stays so with every octet accounted for, or fails with one GOAWAY, or is reset because the request was cancelled or the stream ended |
| Sessions.Http2Session.ReceiveRequest | solvetls/http2/session.py:111-114 | The read loop terminates because every chunk spends capture budget, at most one read per octet; it stops at the first read after which the request can be answered and at no earlier one, and raises nothing exactly then |
| Sessions.Http2Session.SendResponse | solvetls/http2/session.py:116-144 | To a request that can be answered, the head with the status and the content itself (nothing for 204 and 304) are delivered whole, every DATA frame within the windows of its moment, within the capture budget, unless the peer breaks the protocol, cancels the request or ends its stream; what is read meanwhile is captured |
| Sessions.Http2Session.Close | solvetls/http2/session.py:146-154 | A session in order has then said GOAWAY once, with this code, naming the request’s stream or 0, as its last frame; one that had said it stays with what it said; nothing is left unsent |
| Sessions.Http2Session.DrainBuffer | solvetls/http2/session.py:182-211 | The loop cuts off and processes every complete frame in the buffer and no other octet, and stops at the first error |
| Sessions.Http2Session.StripEnvelope | solvetls/http2/session.py:282-290 | HEADERS with priority are rebuilt by the builder into the frame that means the same; every other frame is handed on as it came |
| Sessions.Http2Session.TakeFrame | solvetls/http2/session.py:192-211 | Parsing with the object’s own reader, counting entries, capturing and processing one frame have the specified effect, failures included |
| Sessions.Http2Session.ProcessFrame | solvetls/http2/session.py:215-311 | The object’s fields after a frame are those of the frame semantics, for every frame and every error |
| Sessions.Http2Session.Forward | solvetls/http2/session.py:282-308 | HEADERS lose their priority envelope, SETTINGS go through the adapter, events are handled in order, and an error is sent at most once |
| Sessions.Http2Session.SendBody | solvetls/http2/session.py:129-144 | The send loop terminates and has the effect of the recursive specification |
| H2Proofs.FrameIsAnswered | solvetls/http2/session.py:291-296 | The stand-in for h2 answers every frame with one of five shapes (nothing, a new request, trailers, data, a reset) that move at most one stream, or refuses it with exactly one GOAWAY queued |
| SessionLife.ClientTableLagsByTheQueue | solvetls/http2/adapter.py:113-139 | In every run of reads and responses, until the session fails, the table of a client that decoded what was written is ours before the queued sizes, and the same with none queued |
| SessionLife.HeadMeetsTheClient | solvetls/http2/adapter.py:73-82 | In every such run, the next head, with at most two size updates, leaves the client with our table and our limit |
| Adapter.SettingsTakeEffectInWireOrder | solvetls/http2/adapter.py:113-155 | Whichever path is taken, a SETTINGS frame fails exactly when some supported entry is invalid or overflows a live stream window at its turn, or the table has changed more than 128 times (then with code 11); otherwise settings, live windows and HPACK table are those of the entries taken left to right, with one acknowledgement |
| Adapter.BothPaths | solvetls/http2/adapter.py:137-155 | The one-frame path and the replay path have the same outcome |
| Adapter.ApplySettingsInOrder | solvetls/http2/adapter.py:113-155 | The adapter’s code computes the specified outcome, with its filter, its limit and its two paths |
| Adapter.FilterEntries | solvetls/http2/adapter.py:114-128 | The loop keeps exactly the supported entries that are not table sizes already in force and counts the table changes |
| Adapter.ReplayInOrder | solvetls/http2/adapter.py:146-153 | Replaying entry by entry and discarding every acknowledgement but the last has the specified outcome |
| Adapter.IdsAreDistinct | solvetls/http2/adapter.py:137-137 | The length comparison decides whether an identifier repeats |
| Adapter.SettingsKeepSettled | solvetls/http2/adapter.py:113-155 | Accepted settings leave the encoder at the client’s table size, with queued updates exactly when it is flagged as resized |
| Hpack.CollapsePreservesTable | solvetls/http2/adapter.py:73-82 | A decoder that applies only the smallest and the final size has the table of one that went through every size |
| Hpack.TablesAgreeAfterEveryResponse | solvetls/http2/adapter.py:73-82 | Over every alternation of SETTINGS and responses, the client’s dynamic table after a response is the encoder’s, although it saw at most two size updates per block |
| Hpack.SuppressedExactlyByFinalNoOp | solvetls/http2/adapter.py:121-127 | Without the filter, queued updates are withheld exactly when the last assignment is the size already in force |
| Hpack.UnfilteredNoOpLosesAnUpdate | solvetls/http2/adapter.py:121-127 | A concrete run in which an unfiltered no-op leaves client and server with different tables |
| Hpack.EffectualIsEffective | solvetls/http2/adapter.py:121-128 | The sizes that pass the filter each differ from the one in force before, and leave the size the unfiltered list would |
| Hpack.ResponseEncoder.Encode | solvetls/http2/adapter.py:73-82 | Encoding rewrites the queued sizes to smallest and final, emits them when the table was resized, and inserts the fields |
| RequestDecoders.RequestDecoder.Account | solvetls/http2/adapter.py:51-70 | Names, values and 32 octets a field are counted, even for a refused block; a block is refused exactly if the count passes 1048576; the captured fields are the original ones, and the copy for h2 differs only in bounded Content-Length values |
| RequestDecoders.CopyForH2 | solvetls/http2/adapter.py:62-70 | The copy keeps names, order and values, and a digit string denotes min(value, 1048577) |
| RequestDecoders.OverBudgetIff | solvetls/http2/adapter.py:51-61 | The budget that the session’s stand-in for h2 applies is the same number |
| FrameProofs.ParsersAreExact | solvetls/http2/frames.py:365-633 | A payload parses to a value, with a number of entries used, if and only if it is a rendering of that value under its header and the entries fit the budget; so every parser consumes exactly the declared length |
| FrameErrors.SettingsAreJudged | solvetls/http2/frames.py:456-486 | SETTINGS of whole entries within the budget parse if and only if ENABLE_PUSH is 0 or 1, INITIAL_WINDOW_SIZE at most 2147483647 and MAX_FRAME_SIZE from 16384 to 16777215 in every entry; otherwise the first entry that is not so decides, with code 3 for the window and 1 for the others |
| FrameErrors.ErrorsAreClassified | solvetls/http2/frames.py:365-633 | Code 6 exactly for a payload of the wrong size for its type, 11 only for SETTINGS or ORIGIN entries beyond the budget, 3 only for SETTINGS, and 1 for everything else |
| FrameErrors.FlagsAreBits | solvetls/http2/frames.py:365-411 | The flags are the bits 0x01, 0x04, 0x08 and 0x20 |
| FrameErrors.FrameLayout | solvetls/http2/frames.py:641-652 | A frame is three octets of length, type, flags and four octets of stream, high octet first, and the payload |
| FrameProofs.AcceptedIsDenoted | solvetls/http2/frames.py:365-633 | What a parser returns, rendered with some padding, gives the payload octets back |
| FrameProofs.DenotedIsAccepted | solvetls/http2/frames.py:365-633 | Every rendering of a well-formed payload parses to that payload |
| FrameProofs.ForensicRefinesStrict | solvetls/http2/frames.py:307-337 | On a complete frame, forensic parsing returns the strict frame when there is one and otherwise the raw payload with the same error code, except for the entry limit, which fails in both |
| FrameProofs.EntriesStayInBudget | solvetls/http2/frames.py:220-228 | Entries reserved by a payload never exceed the budget, also when it is malformed |
| FrameProofs.CalmMeansBudget | solvetls/http2/frames.py:316-317 | The entry limit is the only reason for ENHANCE_YOUR_CALM |
| FrameProofs.EnvelopeStripped | solvetls/http2/session.py:282-290 | Parsing the frame rebuilt without priority and padding gives the same stream, header block, END_STREAM and END_HEADERS |
| FrameProofs.HeadersRoundTrip | solvetls/http2/frames.py:655-669 | A built HEADERS frame parses to what it was built from |
| FrameProofs.SettingsRoundTrip | solvetls/http2/frames.py:671-681 | A built SETTINGS frame parses to its entries, in order |
| FrameProofs.BuiltFrameIsRead | solvetls/http2/frames.py:641-653 | The header of a built frame reads back as length, type, flags and stream |
| FrameReaders.FrameReader.ParseFrame | solvetls/http2/frames.py:279-337 | The reader returns the specified frame or error, counts entries on both, and stands at the next frame whenever it returns one |
| FrameReaders.FrameReader.ReserveEntries | solvetls/http2/frames.py:220-228 | Entries are counted only if they fit, and the error leaves the count alone |
| FrameReaders.FrameReader.Read | solvetls/http2/frames.py:230-239 | Exactly n octets inside the payload, or an error that leaves the cursor alone |
| FrameReaders.FrameReader.ReadPriority | solvetls/http2/frames.py:258-264 | Exclusive bit, 31-bit dependency and weight plus one |
| FrameReaders.FrameReader.ReadPaddingLength | solvetls/http2/frames.py:266-272 | The padding length, or an error when it does not fit the frame |
| FrameReaders.FrameReader.SkipPadding | solvetls/http2/frames.py:274-277 | Padding is skipped, and in strict mode it must be zero |
| FrameReaders.FrameReader.ParseData | solvetls/http2/frames.py:365-382 | DATA: content without padding; the specified payload or error code, with the entries used |
| FrameReaders.FrameReader.ParseHeaders | solvetls/http2/frames.py:384-411 | HEADERS: block without priority and padding; the specified payload or error code, with the entries used |
| FrameReaders.FrameReader.ParsePriority | solvetls/http2/frames.py:413-423 | PRIORITY: the specified payload or error code, with the entries used |
| FrameReaders.FrameReader.ParseRstStream | solvetls/http2/frames.py:425-438 | RST_STREAM: the specified payload or error code, with the entries used |
| FrameReaders.FrameReader.ParseSettings | solvetls/http2/frames.py:440-486 | SETTINGS: entries in wire order, effective values, the first unacceptable entry decides the error; the specified payload or error code, with the entries used |
| FrameReaders.FrameReader.ParsePushPromise | solvetls/http2/frames.py:488-517 | PUSH_PROMISE: the specified payload or error code, with the entries used |
| FrameReaders.FrameReader.ParsePing | solvetls/http2/frames.py:519-530 | PING: the specified payload or error code, with the entries used |
| FrameReaders.FrameReader.ParseGoaway | solvetls/http2/frames.py:532-548 | GOAWAY: the specified payload or error code, with the entries used |
| FrameReaders.FrameReader.ParseWindowUpdate | solvetls/http2/frames.py:550-561 | WINDOW_UPDATE: the specified payload or error code, with the entries used |
| FrameReaders.FrameReader.ParseContinuation | solvetls/http2/frames.py:563-573 | CONTINUATION: the specified payload or error code, with the entries used |
| FrameReaders.FrameReader.ParseAltSvc | solvetls/http2/frames.py:575-587 | ALTSVC: the specified payload or error code, with the entries used |
| FrameReaders.FrameReader.ParseOrigin | solvetls/http2/frames.py:589-611 | ORIGIN: entries reserved one by one; the specified payload or error code, with the entries used |
| FrameReaders.FrameReader.ParsePriorityUpdate | solvetls/http2/frames.py:613-633 | PRIORITY_UPDATE: the specified payload or error code, with the entries used |
| FrameReaders.FrameReader.ParsePayloadByType | solvetls/http2/frames.py:339-363 | The parser of the frame type, or the raw payload for an unknown type |
| FrameReaders.BuildFrame | solvetls/http2/frames.py:641-653 | A frame exists exactly when length and stream fit their fields, and then it is the wire image |
| FrameReaders.BuildHeadersFrame | solvetls/http2/frames.py:655-669 | The wire image of HEADERS with exactly the two flags asked for |
| FrameReaders.BuildSettingsFrame | solvetls/http2/frames.py:671-681 | The wire image of SETTINGS, entries in order |
| Decimal.BoundedIsMinimum | solvetls/http2/adapter.py:22-27 | For digit strings of any length the bounded value is min(decimal value, 1048577) |
| Decimal.StrippedEqualIffSameNumber | solvetls/http2/validation.py:51-55 | Two digit strings are equal without leading zeros exactly when they denote the same number |
| Decimal.LengthsAgreeIffOneNumber | solvetls/http2/validation.py:46-55 | The HTTP/2 check accepts exactly the non-empty lists of digit strings that all denote one number |
| Decimal.CheckLengths | solvetls/http1.py:174-187 | The HTTP/1.1 check accepts exactly the Content-Length fields whose comma-separated, trimmed members all denote one number |
| HttpList.ParseHttpList | solvetls/http_fields.py:22-50 | The scanning loop returns the specified members, or fails on an unterminated quotation |
| HttpList.ParsingIsCompositional | solvetls/http_fields.py:28-50 | If every field value has balanced quotes, parsing the joined fields is concatenating the separate parses |
| HttpList.ParsedMembersAreGood | solvetls/http_fields.py:40-49 | Every member is non-empty, trimmed, balanced and free of unquoted commas |
| HttpList.ParsingIsStable | solvetls/http_fields.py:22-50 | Joining the members with commas and parsing again gives them back |
| HttpListGrammar.ListIsRead | solvetls/http_fields.py:22-50 | A list can be read if and only if a grammar of plain characters and quotations with escapes writes it, and then its members are the runs between plain commas, trimmed, without the empty ones |
| HttpListGrammar.TrimIsExact | solvetls/http_fields.py:40-49 | Trimming takes spaces and tabs off both ends, all of them, and nothing else |
| Http1Head.ReadHead | solvetls/connection.py:142-151 | For every chunking the result is a function of the byte stream: the head through the first CRLFCRLF within 65536 octets, else 414 or 431 once 65536 octets are there, else unfinished |
| Http1Head.HeadEndsWithTheFirstEmptyLine | solvetls/connection.py:142-151 | That function, octet by octet: a head is what the stream holds through its first empty line if that ends within 65536 octets, and it is oversized exactly if 65536 octets are there and it does not |
| Http1Head.ReadRedirectHead | solvetls/redirect.py:46-58 | The same for the redirect listener, with an empty stream and an unterminated head told apart at its end |
| Http1Head.FirstOctetsDecide | solvetls/http1.py:37-61 | The choice between 414 and 431 depends on the first 65536 octets only |
| Http1Head.TooLongMeansNoHeadFits | solvetls/http1.py:51-59 | 414 is raised exactly when the request line is too large although its method leaves room, and no stream that begins with this method and target, whatever follows, has a complete head |
| Http1Head.LargeLines | solvetls/http1.py:47-50 | The request line is too large exactly if no line break after the start begins by octet 65532 |
| Http1Head.ChecksAgree | solvetls/http1.py:44-60 | The size check and the search on the octets so far give the answer of the stream |
| Http1Head.HeadIsStable | solvetls/connection.py:145-151 | Once decided, further octets change nothing |
| Http1Head.HeadStandsAlone | solvetls/http1.py:72-79 | A complete head passes the size test again when it is parsed, and its end is where the search finds it |
| ClientHellos.ParserIsExact | solvetls/tls/clienthello.py:30-56 | The parser returns a hello if and only if the octets are its serialisation, with a missing empty extension list and octets after the extensions allowed |
| ClientHellos.Parse | solvetls/tls/clienthello.py:30-56 | The cursor-driven parser computes the specified hello or fails |
| ClientHellos.ParseSuites | solvetls/tls/clienthello.py:35-38 | The loop reads exactly the two-octet suites, and fails on an odd octet |
| ClientHellos.ParseExtensions | solvetls/tls/clienthello.py:43-47 | The loop reads exactly the length-prefixed extensions, in order |
| ClientHellos.SplitsDoNotMatter | solvetls/connection.py:342-390 | However the same handshake octets are cut into valid records, the hello or the alert is the same |
| ClientHellos.RecordsAreTransparent | solvetls/connection.py:353-377 | Valid records amount to their payloads, from any undecided message and before any further octets |
| ClientHellos.DecisionIsFinal | solvetls/connection.py:370-390 | More handshake octets do not change a decision |
| ClientHellos.ReadClientHello | solvetls/connection.py:342-390 | The loop returns the outcome for the stream, consumes a bounded prefix of it, and on success that prefix is whole records in which a handshake message with some body was sent, and the hello is what exactly that body means; a sent body that means none gives the decode_error alert |
| ClientHellos.HelloIsWhatWasSent | solvetls/connection.py:379-389 | For every body sent in valid records, whatever follows: the hello it means, if it means one, and else the decode_error alert |
| ClientHellos.OtherOutcomes | solvetls/connection.py:356-377 | Every other way to end, in numbers: alert 10 for another message or record type, no alert for a TLS alert, an empty record or an announced size over 65536, alert 22 for a record over 16384, and otherwise more octets are needed |
| ClientHellos.ByteReader.Read | solvetls/wire/reader.py:17-25 | Exactly n octets, or an error that leaves the cursor alone |
| ClientHellos.ByteReader.ReadVector | solvetls/wire/reader.py:42-51 | The blob announced by one, two or three octets, with the cursor after it |
| ClientHellos.ByteReader.ReadRemaining | solvetls/wire/reader.py:27-28 | Everything left, and nothing after it |
| Lifecycle.EveryRunKeeps | solvetls/server.py:102-281 | Every interleaving of starts, rollbacks, closes, serving tasks, shutdown steps and clients keeps the lifecycle invariant |
| Lifecycle.NoStartDuringShutdown | solvetls/server.py:112-120 | While a shutdown is unfinished a start is refused and changes nothing, and no start is under way but the one whose rollback it is |
| Lifecycle.StartOpensWhatWasAsked | solvetls/server.py:112-145 | Over every interleaving that follows it, a start that is over, and neither failed to bind nor was followed by a rollback or a close, has left its listener, and the redirect listener exactly if it was asked for |
| Lifecycle.ListenersAreClosedOnce | solvetls/server.py:204-224 | Every listener ever opened is closed by shutdown tasks at most once, exactly once when it is no longer current, and while current only by the current close task |
| Lifecycle.ClosingIsFinal | solvetls/server.py:194-224 | A listener that a shutdown has closed is never closed by another, whatever happens later |
| Lifecycle.ServingTasksCloseOnlyTheirOwn | solvetls/server.py:157-202 | In every run, a listener closed by a shutdown that a serving task asked for is that task’s own or the redirect listener opened beside it, so an old `serve_forever` never closes a replacement |
| Lifecycle.EndedServingSparesReplacements | solvetls/server.py:180-184 | When a serving task ends, its inner tasks are cancelled and asyncio closes what they served: a current listener if and only if the task’s own is current; so in every run nothing that replaced a listener is ever closed by an old serving task |
| Lifecycle.ShutdownClosesItsTarget | solvetls/server.py:204-210 | A shutdown closes only the listeners that were current when it was created, however late it begins |
| Lifecycle.ShutdownLeavesNobody | solvetls/server.py:210-235 | When a shutdown finishes, no client and no report slot is left, and nobody gets in before the next start |
| Lifecycle.SlotsAreBounded | solvetls/server.py:226-281 | Never more than 32 clients and 4 reports, and only clients hold report slots |
| Lifecycle.ShutdownCanFinish | solvetls/server.py:146-224 | From every reachable state, a shutdown’s own steps and the ends of its clients lead to its end: no deadlock, not even with the start that holds the lock while it waits for its rollback |
| Lifecycle.ScheduleKeeps | solvetls/server.py:149-150 | Creating a shutdown task, for a close or a rollback, keeps the lifecycle invariant |
| Servers.RollbackWinds | solvetls/server.py:146-151 | A start that fails after opening a listener has scheduled a new shutdown for exactly the listeners that are current, and turns clients away from then on |
| Servers.SolveTls.BeginStart | solvetls/server.py:112-120 | A start is refused, and changes nothing, exactly while a listener is current or a shutdown unfinished; otherwise it is under way and remembers whether the redirect listener is wanted |
| Servers.SolveTls.FinishBinding | solvetls/server.py:123-125 | A bound listener is new and open, and the redirect listener is bound next exactly if it is wanted; a failed bind leaves nothing to roll back |
| Servers.SolveTls.FinishBindingHttp | solvetls/server.py:130-136 | The redirect listener is new and open, or a shutdown for the first one is scheduled |
| Servers.SolveTls.FinishActivating | solvetls/server.py:143-145 | A start that succeeds here has listeners that no shutdown has closed, the redirect listener exactly if it was wanted, and no unfinished shutdown; one that fails has scheduled a shutdown for what it opened |
| Servers.SolveTls.FinishActivatingHttp | solvetls/server.py:144-146 | The same for the redirect listener, after which the start is over with what was wanted |
| Servers.SolveTls.FinishRollback | solvetls/server.py:151-152 | A failed start leaves no current listener, or leaves its shutdown under way and every further start refused until it ends |
| Servers.SolveTls.RequestClose | solvetls/server.py:194-202 | A caller that expects another listener changes nothing and joins nothing; every other joins the one shutdown that is not over: repeated calls the same one, a first call a new one for exactly the current listeners |
| Servers.SolveTls.BeginShutdown | solvetls/server.py:204-210 | The current listeners are closed, each for the first time and by this task alone, and no other is touched |
| Servers.SolveTls.FinishDraining | solvetls/server.py:211-220 | Whoever is left after the grace period was there when the shutdown began |
| Servers.SolveTls.FinishGathering | solvetls/server.py:221-221 | Nobody is left, although only the clients of the beginning were waited for |
| Servers.SolveTls.FinishShutdown | solvetls/server.py:222-224 | No client, no report slot, no current listener and no shutdown is left, and every listener ever opened has been closed by exactly one shutdown |
| Servers.SolveTls.BeginServing | solvetls/server.py:157-165 | At most one serving task per listener, and serving opens and closes nothing |
| Servers.SolveTls.StopServing | solvetls/server.py:175-179 | A serving task whose listener has been replaced schedules nothing and closes nothing; otherwise it joins the one shutdown there is |
| Servers.SolveTls.FinishServing | solvetls/server.py:180-184 | The served listeners are closed by the cancellation of their tasks, none of them current if the listener has been replaced; nothing else changes |
| Servers.SolveTls.AcceptClient | solvetls/server.py:226-246 | A client gets in exactly while nobody is closing and fewer than 32 are there, and then no shutdown is under way |
| Servers.SolveTls.ReleaseClient | solvetls/server.py:248-265 | The client is gone and with it the report slot it may have held; the others keep theirs |
| Servers.SolveTls.TakeReportSlot | solvetls/server.py:267-276 | A client is turned away exactly when others hold all four slots, and never holds two |
| Authority.NormalizingIsIdempotent | solvetls/uri.py:80-85 | On every valid registered name, normalising twice is normalising once |
| Authority.NormalizedIsValid | solvetls/uri.py:80-85 | The normal form of a valid name is valid |
| Authority.NormalizedMeansTheSame | solvetls/uri.py:80-85 | The normal form has the percent-decoded octets of the name, in lower case |
| Authority.SameNormalFormIffSameSpelling | solvetls/uri.py:80-85 | Two names have one normal form if and only if they have the same octets up to case and the same of them are escapes that must stay |
| Authority.ReservedSpellingsDiffer | solvetls/uri.py:80-85 | A reserved character and its escape mean the same octet and are kept apart |
| Authority.PortRangeIsExact | solvetls/uri.py:51-56 | A port text of any length is in range exactly when its digits denote at most 65535 |
| Authority.AuthorityIsExact | solvetls/uri.py:25-60 | An authority is accepted exactly when its host is a valid registered name or IP literal and its port is missing, empty or at most 65535; for CONNECT both are needed and the port is not zero |
| Authority.CutIsLossless | solvetls/uri.py:27-47 | The host ends at the first colon, or at the first closing bracket of a literal, and the parts give the authority back |
| Authority.NormalizedParts | solvetls/uri.py:63-90 | The normal form of an authority is the canonical host and the number the port’s digits denote, of any length; a missing or empty port gives the default |
| Authority.EqualIffSameHostAndPort | solvetls/uri.py:63-90 | Two accepted authorities compare equal if and only if they have the same port number, with the scheme’s default for a missing one, and are two names with one spelling or two literals with one canonical text |
| Authority.EqualAuthoritiesAgree | solvetls/uri.py:63-90 | Authorities that compare equal are both names, the same up to case, or both literals with one canonical text, and have the same port number, with the scheme’s default for a missing one |
| AuthorityGrammar.NamesAreWritten | solvetls/uri.py:44-85 | A registered name is valid if and only if it is written from allowed characters and percent signs with the two hexadecimal digits of an octet in either case; what it decodes to and its normal form are those of what was written |

## Left out

- OpenSSL, memory BIOs, TLS shutdown, sockets, timeouts, `sleep`, logging: await points are interleaving points only.
- The internals of h2 and hpack: Huffman coding, header encoding, the full stream machine. The dynamic table is a
  sequence of sized entries.
- The rewriting of Content-Length inside h2's own event input reaches the session model only through `Env`; its
  effect is stated by `RequestDecoders.CopyForH2`.
- Field and request-target validation beyond Content-Length, `validate_path_query`, `urlsplit`: many independent
  branches, or library behaviour. Which texts are IPv6 or IPvFuture literals, and their canonical form, is a
  parameter of the authority model.
- `parse_request` beyond finding and checking the head, and Transfer-Encoding: each rule is settled by reading it.
- Fingerprints, reports, TLS extension decoding, name tables, storage, SYN parsing, process startup.
- Response header names and values: a response head is its status, its HPACK size updates
  and the fields it adds to the table.
- Writes that fail: a failed write is the end of the connection, and what follows it is not modelled.
- Cancellation is delivered only where the model has a step for it: a start waiting for its rollback, and a serving
  task at any time. A shutdown task is not cancelled, as it is shielded in the source.
- ClientHellos.ReadClientHello: the octets come from one stream that may end; the ten-second limits are not modelled.
