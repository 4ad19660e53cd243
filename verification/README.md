# A verified model of the steady proxy

The proxy sits between streaming LLM clients and their upstream. It reads a server-sent-event stream in
arbitrary chunks, buffers and validates it, and either replays it whole, commits to live streaming part
way, or gives it up without a trace and tries again. This project models the stateful cores of that
machinery in Dafny and proves what they keep over every input, every chunking and every schedule.

A byte string is a Dafny `string` with one character per byte. What the program leaves to a library
(decoding and encoding JSON, matching phrases, trimming text) is a function-valued field of an `Env`,
`Rules` or `Text` record, so every theorem holds for any such function. The one law of a library that
theorems need is that JSON written for a delta decodes to the delta (`EncoderFaithful`, in
`ToolJsonConservation` and `ResponsesMeaning`); it is required only of deltas that the decoder itself
gave, or that join what it gave. The one convention they need is that no in-band error is classified
under the code that marks a refusal (`AnthropicCapture.ErrorsAreErrors`, `ResponsesCapture.Unwritten`).
Clocks, sockets, storage faults and the client are inputs: a capture takes any list of turns (read,
keepalive tick, idle tick, end of context), the retry loop takes any sequence of attempt outcomes.

Loops and objects of the program are methods and classes here (`SseParser.Parser`, `Spool.Spool`,
`ToolJson.Validator`, `ToolJson.Normalizer`, `StreamOrder.StreamValidator`, `AnthropicWire.Adapter`,
`GeminiWire.Wire`, `ResponsesCoalescer.Replayer`, `CaptureEngine.Engine`, `RetryLoop.Handler`), each
proved against a function over values; the theorems are lemmas about those functions.

| file | what it holds |
|---|---|
| `SseParser`, `SseDocument`, `SseLimit`, `SseLines`, `SseRoundTrip`, `SseFrame` | the incremental event parser, its whole-input reference, the limit on frames, the lines of one frame, re-reading emitted bytes, frames the proxy writes |
| `Spool` | the memory-then-file buffer |
| `StreamOrder`, `ToolJson*`, `AnthropicWire` | the Anthropic validators, the replay normalizer, and the wire that shares them across the commit; `ToolJsonBlocks` tells one tool block from its events |
| `Capture`, `CaptureEngine`, `CaptureTransparency`, `CaptureBeats`, `*Capture`, `AnthropicVerdicts`, `CaptureRuns` | the transactional engine, what it writes, heartbeats included, why it fails and when it commits, and whole runs per protocol |
| `ResponsesFrames`, `ResponsesCoalescer`, `ResponsesMeaning`, `ResponsesBytes`, `ResponsesUnicode` | the streaming replayer that joins text deltas, and the escape check |
| `GeminiNumber`, `GeminiWire` | exact int32 reading and candidate completion |
| `RetryLoop`, `RetryReasons`, `RequestRuns`, `FailureRules`, `FallbackList`, `RetryDelay` | the attempt loop, why it sends and why it ends, requests as chains of captures, failure rules, the fallback list and the waits |

Six promises hold only under a condition. Each is proved on all inputs that meet it, with a concrete
stream that breaks the promise without it:

* Re-reading emitted records keeps all but possibly the first. A record whose frame begins with a
  byte-order mark reads differently when it comes first if it was read inside of its stream, after
  frames that were dropped, and the mark is not harmless to its lines (`SseRoundTrip.RoundTrip`,
  `OpeningSurvives`, `GuardDecides`, `BomAfterDroppedFrame`). A capture that replays a prefix through the
  parser inherits the corner even with coalescing switched off (`AnthropicCapture.OffPrefixIsRaw`,
  `BomIsLost`).
* A validated stream replays without error unless a record that carries only `id` or `retry` arrives
  between a truncated tool input and the event that decides about it (`ToolJsonLockstep.Lockstep`,
  `StrandsAt`, `BareRecordBreaksReplay`): the validator skips such a record, the normalizer takes it for
  the verdict.
* Tool input text is conserved unless a block start reuses an index whose input was never closed
  (`ToolJsonConservation.Conservation`, `ToolJsonExamples.ReusedIndexDrops`).
* It keeps its order unless a ping that brings a block payload, while frames are held back, overtakes
  undelivered text of that block: the shape check lets such a ping pass, and the normalizer releases it
  at once (`ToolJsonConservation.InStepIff`, `ToolJsonExamples.LoudPingReorders`). Everything that is
  not input comes out in order in any case.
* A heartbeat that is a comment is a no-op to the client unless it precedes the first record, and that
  record opens the stream with a byte-order mark which is not harmless to its lines
  (`CaptureBeats.CaptureRead`, `SseRoundTrip.GuardInside`, `CaptureBeats.MarkBehindBeat`): the mark is
  then read as part of the record's first line.
* The wire bytes of withheld fragments bound their decoded text, as the comment at sse.go:946 says they
  always do, exactly if no fragment decodes to more text than its frame has bytes
  (`ToolJsonBudget.WireBoundsDecoded`). Text that is no UTF-8 decodes to three times its size
  (`InvalidTextSwells`), so the comment is not true of the code; the byte budget itself always holds.

Sections 9.2.5 and 9.2.6 of the WHATWG HTML standard dispatch no event for a block that carries only
`id` or `retry`; the code emits a record for it, and the model follows the code.

## Model

| member | source | states |
|---|---|---|
| SseParser.Parser.FeedChunk | sse.go:133-173 | one read chunk leaves the parser's fields and its output exactly where the byte-by-byte machine would, for any cut of CR, LF and CRLF, any byte limit, and the end of input |
| SseParser.Parser.FinishLine | sse.go:184-222 | ending a line strips a first byte-order mark, applies one field, or emits the record with its raw bytes at a blank line |
| SseParser.Parser.AppendRaw | sse.go:175-182 | a frame grows by a chunk or fails as a whole when it would pass the limit |
| SseParser.Parser.TakeSegment | sse.go:149-170 | a segment up to the next line break is consumed in one step, and a final CR is left pending |
| SseParser.Parser.FinishPending | sse.go:136-148 | a pending CR takes the LF that belongs to it, if it comes first in the next chunk, and then ends its line once |
| SseParser.RunSplit | sse.go:130-173 | reading a and then b is reading a + b |
| SseDocument.FeedIsLines | sse.go:133-222 | from the start of a line the machine gives the records, and the failure, of a recursive reading of the complete rest line by line |
| SseDocument.ChunkInvariance | sse.go:128-222 | any non-empty split of a stream yields the records of the whole document, and fails exactly when the document has a frame over the limit |
| SseLimit.LimitExact | sse.go:175-182 | a document is a list of frames; with a limit exactly the records of the frames before the first longer one are emitted, none of them longer than the limit, and the parser fails if and only if some frame, complete or not, is longer |
| SseRoundTrip.FeedCloses | sse.go:184-222 | every emitted record's raw bytes start with no line break and read alone to exactly that record |
| SseRoundTrip.RoundTrip | sse.go:184-222 | for every prefix of the emitted records, re-reading their concatenated raw bytes gives the same records if and only if the first has no byte-order mark in front, or one whose line goes on with text and whose lines without it still spell the record |
| SseRoundTrip.OpeningSurvives | sse.go:195-200 | the first record of a stream reads alike on its own, mark or not |
| SseRoundTrip.GuardDecides | sse.go:195-222 | a record read inside of its stream survives being first if and only if it has no mark, or a mark that is harmless to its lines |
| SseRoundTrip.GuardInside | sse.go:195-222 | a record read at the start of its stream reads alike inside of one if and only if it has no mark, or a harmless one |
| SseLines.HarmlessIff | sse.go:195-222 | losing the mark leaves name and data as they are if and only if its line was a comment next to another line, an event name that is empty or replaced later, empty data that no other data follows, or any other field |
| SseRoundTrip.RecordSays | sse.go:195-222 | a record emitted inside of its stream is named by the last event line of its frame, and its data are the values of the data lines, put together with line feeds |
| SseRoundTrip.OnlyFirstChanges | sse.go:900-942 | re-reading emitted records re-reads the first one alone and keeps all later ones |
| SseRoundTrip.BomAfterDroppedFrame | sse.go:195-214 | a concrete stream whose only record is lost when its bytes are read again |
| SseFrame.FrameReads | sse.go:1083-1116 | a frame the proxy writes parses back to its name and data, whatever they are, as long as both are single lines |
| Spool.Spool.Write | sse.go:28-53 | a write is accepted whole or refused; content is the concatenation of accepted writes, in memory or in the file, and a fault leaves at most a partial last record |
| Spool.OverLimitForever | sse.go:28-33 | once over the limit no sequence of writes is ever accepted or changes the content |
| ToolJson.Validator.Accept | sse.go:670-741 | one event takes the validator's maps, counters and truncation flag to the next state of the validating machine, with its verdict |
| ToolJson.Normalizer.Accept | sse.go:963-1057 | one event takes the normalizer to its next state and releases exactly the frames that the replay machine releases |
| ToolJson.Normalizer.AcceptStop | sse.go:1032-1055 | closing a block releases its joined input, its empty fragments verbatim, or holds an invalid input back within the byte budget |
| ToolJson.NRunSplit | sse.go:900-942 | normalizing a then b, with the state carried over, is normalizing a + b |
| ToolJsonBlocks.BlockVerdict | sse.go:699-740 | over any tool block, its fragments mixed with other events and within budget: rejected if its start brings input that is no JSON, else forgotten, with an excuse needed if and only if the fragments spell some text that is no JSON object |
| ToolJsonBlocks.BlockReplay | sse.go:999-1057 | over any such block the normalizer passes its start and the other events on at once and its fragments right before its stop: as they came if they spell nothing, as one delta with all of their text, or held back with the stop if that is no JSON object |
| ToolJsonBlocks.DeltaReads | sse.go:1083-1095 | the one delta is, at the start of a stream and inside of one, an event of its own under the name of a delta |
| ToolJsonBlocks.OnlyLimitsExcuse | sse.go:763-772 | while a truncated input waits, the next event that is no ping and has data is accepted if and only if it is a message_delta with stop reason max_tokens or model_context_window_exceeded |
| ToolJsonBlocks.OnlyLimitsRelease | sse.go:970-990 | what is held back is released, with the pings since and the deciding event behind it, if and only if that event declares such a limit |
| ToolJsonLockstep.LockStep | sse.go:670-741 | one accepted event keeps the validator's and the normalizer's open blocks, inputs and waiting flags equal, unless it strands the replay |
| ToolJsonLockstep.Lockstep | sse.go:963-1057 | over an accepted stream and within budget, replay fails if and only if some record strands it, with the invalid-tool-input error; otherwise both machines end in agreement |
| ToolJsonLockstep.StrandsAt | sse.go:55-64 | over a well-shaped accepted stream a record strands the replay if and only if one with neither name nor data arrives while a truncated input waits |
| ToolJsonLockstep.BareRecordBreaksReplay | sse.go:671-673 | a concrete accepted stream whose replay fails |
| ToolJsonConservation.Conservation | sse.go:963-1066 | over an accepted run that ends with nothing pending, everything but input deltas comes out verbatim in order; for each block the text received is the text sent only if no start dropped undelivered text, and if so, whenever no ping overtook some of it |
| ToolJsonExamples.ReusedIndexDrops | sse.go:1000-1010 | a concrete stream that every check accepts, and whose tool input is not received |
| ToolJsonExamples.LoudPingReorders | sse.go:963-990 | a concrete stream that every check accepts, and whose tool input is received in another order |
| ToolJsonConservation.RunKept | sse.go:963-1066 | from any accounts, over any accepted run: released text plus pending text plus dropped length accounts for all input text of every index, and the text is in step while nothing is dropped or overtaken |
| ToolJsonConservation.InStepIff | sse.go:963-1066 | at every moment of a run what was written and what is pending of a block is what was read, if and only if no start drops and no ping overtakes undelivered text of it |
| ToolJsonConservation.OnlyPingsReorder | sse.go:963-990 | where as much text of a block is received as was sent, but not the same, nothing was dropped and a ping overtook some of it |
| ToolJsonStreams.StreamConservation | sse.go:900-1057 | the records of any parsed stream are conserved down to what a client parses from the bytes it receives, if the frame that opens the output reads there as it was read |
| ToolJsonDelivery.Delivery | sse.go:1032-1055 | in every run each delta with input that a client receives is directly followed by the stop of its block, and is valid JSON or was excused right after by a message_delta that declares max_tokens or model_context_window_exceeded; a ping that brings input of its own aside |
| ToolJsonStreams.StreamDelivery | sse.go:1032-1055 | the same for the records of any parsed stream |
| ToolJsonDelivery.MessageStopDrains | sse.go:679-685 | a stream accepted by both machines up to its message_stop leaves no input text waiting and no frame held |
| ToolJsonBudget.VRunBudget | sse.go:704-736 | after any event sequence inputBytes is the total input of the open blocks and within the cap |
| ToolJsonBudget.NRunBudget | sse.go:991-1066 | after any event sequence, failing or not, retainedBytes is the wire size of everything withheld, covers every fragment kept verbatim, and is within the cap |
| ToolJsonBudget.WireBoundsDecoded | sse.go:944-948 | over any set of events, the wire bytes of each open block bound its decoded input in every run if and only if no fragment decodes to more text than its frame has bytes |
| ToolJsonBudget.InvalidTextSwells | sse.go:944-948 | a concrete fragment, not UTF-8, whose decoded text is longer than all that the budget counts for it |
| ToolJsonBudget.StartBudgets | sse.go:658-668 | both machines start within any non-negative cap |
| ToolJsonBudget.SumWithout | sse.go:1059-1066 | the total over a map is one entry plus the total of the rest, whichever entry is taken |
| StreamOrder.StreamValidator.Accept | sse.go:233-263 | one event moves the order check's flags and block counter as its whole-stream fold does |
| StreamOrder.RunIsOpened | sse.go:233-263 | before any message_stop, nothing is invalid if and only if there is at most one message_start, ahead of every block and delta, and blocks never close more often than they opened |
| StreamOrder.TerminalIsComplete | sse.go:265-267 | the check is terminal at the first message_stop if and only if the stream as a whole is complete |
| StreamOrder.KindsByName | sse.go:233-267 | in terms of event names: in order means at most one message_start, ahead of blocks and deltas, and no block stop without its start; complete means all blocks closed and one message_stop, last |
| AnthropicWire.ReplayWithNormalizer | sse.go:900-942 | replaying a buffer in chunks of any size writes the normalizer's frames for the records of the whole buffer and stops at the same failure |
| AnthropicWire.Adapter.BufferedEvent | wire.go:186-216 | one event before the commit updates the shared validators and gives the done flag or failure of the wire's buffered step |
| AnthropicWire.Adapter.LiveEvent | wire.go:218-262 | one event after the commit gives the frames, done flag and failure of the wire's live step, sharing the normalizer |
| AnthropicWire.Adapter.WritePrefix | wire.go:268-273 | a prefix replay passes through the normalizer that live streaming continues with, or is raw for callers that stream tool fragments |
| AnthropicWire.Adapter.WriteBuffered | wire.go:264-266 | a whole replay uses a fresh normalizer and leaves the shared one alone |
| CaptureEngine.Engine.CommitLive | sse.go:412-424 | a commit writes the head once, then the replayed prefix, and for a gated caller happens only when the buffer has something to forward |
| CaptureEngine.Engine.ReplayCaptured | sse.go:605-616 | a buffered success writes one head and one replay of exactly the spooled events, or reports which way the replay failed |
| CaptureEngine.Engine.BufferedEvent | sse.go:573-597 | an event before the commit is validated, spooled, and ends the capture exactly when it is terminal, rejected, or cannot be stored, each failure with its cause |
| CaptureEngine.Engine.KeepEvent | sse.go:575-597 | an event that is kept ends the capture if it is terminal, with one whole replay, or if it refuses, with the stream kept and nothing written; it fails otherwise only if the storage is over its limit or had a fault |
| CaptureEngine.Engine.LiveEvent | sse.go:549-572 | an event after the commit writes its frames, or one keepalive if it has none, never nothing if the stream goes on, and ends the capture exactly when the wire says so |
| CaptureEngine.Engine.Process | sse.go:524-603 | the events of one read are looked at in order up to the first that ends the capture, and only then the parser's own fault |
| CaptureEngine.Engine.EndOfInput | sse.go:446-455 | the end of input fails by its own cause only when it is unclean, inside of a frame, or the wire is incomplete; else what was read is delivered, unless its replay breaks |
| CaptureEngine.Engine.OnKeepTick | sse.go:466-497 | with the timer on, a tick leaves a committed capture behind whose last write is a keepalive, unless the replay failed, or the caller is gated and there is nothing to forward yet |
| CaptureEngine.Engine.Take | sse.go:427-516 | every turn keeps the engine's accounts, commits if and only if the capture is due after it, and ends it only for a cause that the events or the turn itself give |
| CaptureEngine.Engine.Capture | sse.go:346-516 | over every list of turns, in any order: no head and no byte without a commit, one head first, committed with the first turn after which it is due and not before, success only when the protocol is complete, at its last event or at a clean end of input with the client there, and no failure without its cause: the protocol's own, storage, a broken replay, a frame over the limit, or the turn that cut the stream off; and all events looked at are the first ones of the bytes of the turns taken |
| CaptureEngine.HoldsBack | sse.go:457-497 | a capture that may not commit early is never committed before a tick of the timer |
| Capture.Delivers | sse.go:595-616 | when the last event is terminal, storage held and the replay is whole and gets across, the capture succeeds and the client has all of the replay |
| Capture.DeliveredIsOwn | wire.go:38-47 | a failure that counts as delivered is that of the last live event, whose own frame is the last thing the client was sent |
| CaptureEngine.Engine.HeldIsWhole | sse.go:576-586 | a held refusal is everything that was looked at, refused by the protocol itself, with nothing written downstream |
| Capture.LivePush | sse.go:549-572 | a live event extends what the client has by exactly its frames |
| CaptureTransparency.Transparent | sse.go:346-616 | on a byte-exact protocol the client has a prefix of the raw bytes of the events looked at, wherever the run ended, and all of them on success |
| CaptureBeats.AllRead | wire.go:48-53 | a client that parses all bytes of a trace, heartbeats included, reads exactly the records, with the heartbeats where they were sent, if and only if the first record reads alike where it stands, at the start or behind a heartbeat |
| CaptureBeats.CaptureRead | sse.go:549-572 | so it is for every committed capture of a protocol that passes on raw bytes |
| CaptureBeats.MarkBehindBeat | sse.go:466-497 | a concrete stream whose first record loses its data to a keepalive that a tick sent ahead of it |
| GeminiCapture.KeepalivesUnheard | gemini.go:254-254 | a Gemini client reads its records and nothing else from all the bytes, under that condition |
| AnthropicCapture.KeepalivesUnheard | wire.go:48-53 | so does the client of an Anthropic capture that passes on raw bytes |
| ResponsesCapture.KeepalivesBetween | responses.go:757-767 | a Responses client reads its records, and the keepalive records between them, under that condition |
| GeminiCapture.ByteExact | gemini.go:215-254 | every Gemini capture is byte-exact |
| GeminiCapture.SuccessIsComplete | gemini.go:237-242 | a Gemini capture succeeds only at the end of input, and only if its events answer the request, wherever the commit fell |
| GeminiCapture.AnsweredIsComplete | gemini.go:215-242 | no event fails a capture whose events answer the request, and at the end of its input it is complete |
| GeminiCapture.ErrorsTold | gemini.go:221-235 | after a commit the event that fails a capture is sent as its own frame if and only if it is an error the upstream reports that no new attempt can clear |
| AnthropicCapture.Handoff | wire.go:246-273 | replaying any prefix and streaming the rest through the same normalizer releases the frames of replaying everything through a fresh one |
| AnthropicCapture.HandoffIndependence | sse.go:900-1057 | what a successful capture through the normalizer delivers does not depend on whether or when it was committed |
| AnthropicCapture.AlwaysRendersPrefix | sse.go:549-616 | however a capture ends, the client has a prefix of that rendering: of the buffered part if the replay broke off or was never begun, of all events up to one that failed, and only a forwarded error frame comes on top |
| AnthropicCapture.OffPrefixIsRaw | sse.go:66-72 | with coalescing off a prefix replay keeps every byte if and only if the first record has no byte-order mark in front, or text after it on that line and some line that is no comment |
| AnthropicCapture.OffIsByteExact | wire.go:218-273 | captures with coalescing off, or streaming raw fragments after a commit, are byte-exact under that condition |
| AnthropicCapture.BomIsLost | sse.go:900-942 | a concrete stream whose bytes a prefix replay drops, with coalescing on or off |
| AnthropicCapture.SuccessIsComplete | wire.go:196-262 | a capture succeeds only at a message_stop, and a buffered success is a complete stream as a whole |
| AnthropicCapture.RefusalIsComplete | wire.go:196-216 | the stream behind an intercepted refusal is complete |
| AnthropicCapture.ReplayOfValidated | sse.go:55-64 | replaying a stream buffered to its end is rejected, budget aside, if and only if a record with neither name nor data stands between a truncated tool input and the event that decides about it |
| AnthropicVerdicts.BufferedGoesOn | wire.go:186-216 | before a commit a stream goes on exactly while it has no in-band error, passes shape and tool checks, is in order and has no message_stop; content is known once a content_block_delta came, and a refusal once it is the last stop reason declared |
| AnthropicVerdicts.WholeIsJudged | wire.go:207-216 | a sound and complete message is refused if and only if refusals are intercepted and the last stop reason it declares is a refusal; otherwise it is done |
| AnthropicVerdicts.OnlyWholeIsJudged | wire.go:196-216 | and the first event at which a stream is done or refused makes it such a message |
| AnthropicVerdicts.GatedHasContent | sse.go:457-489 | a gated capture is committed only with a content_block_delta in its buffer |
| AnthropicVerdicts.LiveGoesOn | wire.go:218-262 | after a commit a stream goes on exactly while it is sound from its first event, has no message_stop since, and the normalizer accepts it where it goes through it |
| AnthropicVerdicts.SuccessIsSound | wire.go:186-262 | what is delivered as complete passed every check from its first event to its last, and a buffered success is a complete message and no intercepted refusal |
| AnthropicVerdicts.FaultIs | wire.go:186-262 | an in-band error fails under its own classification, tool input that does not fit as too large, anything else as malformed, which may clear |
| AnthropicVerdicts.ErrorsTold | wire.go:224-236 | after a commit the event that fails a capture is sent as its own frame if and only if it is an in-band error that no new attempt can clear |
| ResponsesCapture.ByteExact | responses.go:119-198 | with a joining size of zero every Responses capture is byte-exact |
| ResponsesCapture.ClosesWhole | responses.go:229-331 | the raw bytes of a record that the event parser emits are exactly one frame of the replay reader |
| ResponsesCapture.CaptureKeepsMeaning | responses.go:194-222 | on success the frames delivered, joined prefix and raw rest, mean what the events mean, wherever the commit fell |
| ResponsesCapture.AlwaysKeepsMeaning | responses.go:119-222 | however a capture ends, the client has a prefix of a replay of the buffer, or what means all the events looked at, or all but the one that failed |
| ResponsesCapture.SuccessIsTerminal | responses.go:119-160 | a capture succeeds only at a well-formed terminal event, or at an error frame the client recovers from, delivered buffered |
| ResponsesCapture.BufferedGoesOn | responses.go:119-160 | before a commit a stream goes on until an error frame or a final event, and has something to forward once an output event came |
| ResponsesCapture.BufferedEnds | responses.go:119-140 | a capture that meets such an event before its commit ends at it; an error the client cannot recover from by itself, or a malformed final event, fails it under its own failure with nothing written |
| ResponsesCapture.ErrorsTold | responses.go:162-190 | after a commit the event that fails a capture is delivered as its own frame if and only if it is an error that no new attempt can clear or the client recovers from; a malformed final event is passed on but does not count as delivered |
| CaptureRuns.Run | sse.go:346-516 | any schedule leaves a record that satisfies all of the engine's promises, over the events of the document that the turns taken spell: every failure has its cause, a deliverable response is delivered, a commit happens with the first turn after which it is due, a capture that still waits has met nothing terminal, and a refusal that ends one is kept |
| CaptureRuns.GeminiRun | gemini.go:215-254 | any schedule: nothing without a commit, a byte prefix always, on success all bytes; success only if the input ended cleanly, all its events were looked at and they answer the request, and, given room, whenever that is so; only a final error of the upstream's own is told |
| CaptureRuns.AnthropicRun | wire.go:164-277 | any schedule: nothing without a commit; success at message_stop with every check passed; through the normalizer its rendering of the events, or a prefix of that on failure; past it the bytes of the events, or a prefix; given room, a whole message that was not committed is held if refusals are intercepted and its last stop reason is one, else delivered, and a committed one up to its message_stop; only a final error of the upstream's own is told |
| CaptureRuns.ResponsesRun | responses.go:119-222 | any schedule: nothing without a commit, on success the meaning of the events, the last of which is terminal, and on failure that of a prefix; a finished response is delivered, given room; an error before the commit ends the capture unwritten; only a final error of the upstream's own is told |
| CaptureRuns.GeminiDelivers | gemini.go:237-242 | an answered request whose input ended cleanly is delivered if there is room for it |
| CaptureRuns.AnthropicDeclared | wire.go:186-262 | a whole message that is not committed comes to what its last stop reason declares, and a committed sound stream is delivered up to its message_stop |
| CaptureRuns.ResponsesDelivers | responses.go:119-190 | a response whose last event finishes it is delivered if there is room for it |
| CaptureRuns.CutOffSays | sse.go:1172-1190 | a stream that was cut off is reported as idle, past its deadline, without its client, ended too early, or broken in reading; all but a client that left may clear |
| CaptureRuns.OwnFindings | sse.go:498-516 | a failure that no event reported may clear on a new attempt unless the response is too large or the client has left, and is never one that the client was told |
| CaptureRuns.OutputFirst | sse.go:457-465 | without a tick only model output commits a Responses capture |
| ResponsesFrames.CutMachine | responses.go:229-331 | the byte-step frame reader cuts the frames and the tail of the whole input |
| ResponsesFrames.CutJoins | responses.go:229-331 | cutting loses no byte |
| ResponsesFrames.CutConcat | responses.go:229-331 | frames that stand apart, put end to end, are cut back into themselves |
| ResponsesFrames.CutSeparable | responses.go:229-331 | the frames cut from any input stand apart and are whole |
| ResponsesCoalescer.SimpleFrame | responses.go:719-753 | a frame is simple if and only if, line by line, it has at most one event and exactly one data line that carry the record's name and data, and nothing else |
| ResponsesBytes.SimpleIff | responses.go:719-753 | over one whole frame: simple means one line that spells its data and, unless it is unnamed, one that spells its name, in either order, and no other line |
| ResponsesCoalescer.Replayer.AppendBytes | responses.go:237-256 | a frame is kept in memory up to the limit and passed through from the byte that exceeds it, after the pending text |
| ResponsesCoalescer.Replayer.AcceptEvent | responses.go:373-406 | a delta joins the pending group, replaces it, or passes as a barrier, and the group's payload stays within the limit |
| ResponsesCoalescer.Replayer.ReadChunk | responses.go:264-316 | one read leaves the reader's flags and frames where the byte-step machine is |
| ResponsesCoalescer.Replayer.ReplayReader | responses.go:229-331 | for every read chunking the bytes written are the replay of the whole input, and the most that was ever kept, of a frame or of a group, is within the limit |
| ResponsesMeaning.ReplayKeepsMeaning | responses.go:333-440 | collapsing adjacent text of one route gives the same tokens for input and output, barriers verbatim, each run with its last sequence number, and the same tail |
| ResponsesMeaning.JoinedToken | responses.go:408-440 | a joined frame reads back as one delta with the joined fields |
| ResponsesMeaning.MergeToken | responses.go:692-714 | merging compatible deltas concatenates their text and takes the later sequence number and padding |
| ResponsesMeaning.ReplayVerbatim | responses.go:373-440 | when no two neighbours can join, the output is the input byte for byte |
| ResponsesMeaning.RunBecomesOne | responses.go:373-406 | after a barrier a run of one route that fits the limit becomes one frame: a lone delta its own bytes, several the encoding of all their text with the last sequence number and padding |
| ResponsesBytes.DeltasBecomeOne | responses.go:373-500 | the bytes of any frames with deltas of one route, each within the limit and their data together within it, replay as one frame: a lone one as it was, several as the encoding of all their text with the last sequence number and padding |
| ResponsesUnicode.ValidUnicode | responses.go:574-615 | on UTF-8 text the check holds if and only if every escape in a string has four hex digits and surrogates occur only as adjacent high-low pairs |
| ResponsesUnicode.Hex4 | responses.go:617-636 | four hex digits give their value, anything else is refused |
| GeminiNumber.Int32OfText | gemini.go:145-210 | on every number text the answer is v if and only if the text denotes the integer v in int32 range and v is zero or the written exponent fits 32 bits |
| GeminiNumber.ScanMantissa | gemini.go:160-177 | the scan finds the first and last nonzero digit, the digit count and the fraction length |
| GeminiNumber.Accumulate | gemini.go:189-199 | the accumulated value is that of the significant digits and never leaves 64 bits |
| GeminiNumber.ScaledInteger | gemini.go:185-202 | a value with a nonzero last digit and a negative scale is not an integer, and a non-negative scale is the exact shift |
| GeminiNumber.OutOfRange | gemini.go:185-188 | a negative scale, or more than ten digits after scaling, means no int32 is denoted |
| GeminiWire.Wire.AcceptEvent | gemini.go:418-475 | one event updates the candidate map, the counter and the flags as the chunk fold does, stopping at the first fault |
| GeminiWire.RunCounted | gemini.go:418-475 | after any history finished counts exactly the finished candidates, all indices are in range, and they are the ones its chunks finished |
| GeminiWire.RunTells | gemini.go:418-475 | after any history the fault flag, the block flag and the emptiness of the candidate map are what the events say by themselves: a fault is an event that is no chunk, an error, or holds a candidate that is null, out of range, doubled in its chunk, or speaks after it finished |
| GeminiWire.Completion | gemini.go:237-242 | completion at the end of transport holds if and only if the events answer the request: none is faulty, and every requested index finished in some chunk, or some chunk blocks the prompt and none has a candidate |
| RetryLoop.Handler.TryLocalRetry | main.go:385-401 | a hidden retry happens if and only if nothing refused, its budget lasts and its wait is possible, and is sent on the original model |
| RetryLoop.Handler.TakeFast | main.go:448-458 | the one fast retry of a request repeats the current model and is used up by it, unless its wait is cut short, which uses nothing up and ends the request |
| RetryLoop.Handler.FastOnly | main.go:484-496 | an error status that is no refusal gets the fast retry if and only if nothing refused, hidden retries are configured off, it names no wait of its own, and the retry is open and its wait not cut short |
| RetryLoop.Handler.SwapToFallback | main.go:402-431 | the next candidate is taken if and only if time and body allow it, and is the first unused entry that is not the original model |
| RetryLoop.Handler.OnTransportError | main.go:442-463 | a transport error is followed by the hidden retry if that is possible, else by the fast retry, else by a candidate, else by nothing |
| RetryLoop.Handler.OnErrorStatus | main.go:465-496 | an error status that refuses is followed by a candidate or nothing; any other by a candidate if an earlier attempt refused, else by the hidden retry, else by the fast retry, else by nothing |
| RetryLoop.Handler.SendOnce | main.go:361-615 | each attempt is sent once, and what is sent after it, and why, is what one table over its outcome and the request so far says |
| RetryLoop.Handler.Hold | main.go:560-579 | only the first refusing answer is held |
| RetryLoop.Handler.Finish | main.go:617-636 | an exhausted chain gives the held answer to a present client, and never invites a retry |
| RetryLoop.Handler.Handle | main.go:325-661 | for every sequence of outcomes: at most 2 + N + K attempts, none after a commit, original model up to the first refusal and then the candidates in order, none of them passed over, every attempt sent for the reason that the table gives from the outcomes before it, the first answer held, and an ending only when nothing more could be sent |
| RetryLoop.NoModelTwice | main.go:342-352 | with a deduplicated list no candidate is attempted twice but for the fast repetition, and the original is never tried again |
| RetryReasons.WhySent | main.go:385-500 | a hidden retry follows a failure that may clear, before any refusal, with fewer than N repetitions behind it and budget and time left; the fast retry follows a quick failure where hidden retries are off or a chain has begun, once; a candidate follows a refusal, and a last failure that refuses or that the next model may not have |
| RetryReasons.HowItEnds | main.go:505-609 | a request ends cleanly after a whole response or after the upstream's own final error that was delivered, and is cut off after any other failure behind a commit |
| RetryReasons.WhySpent | main.go:385-500 | a request ends without an answer only when no retry, no fast retry and no candidate was left |
| RetryReasons.WhatItSays | main.go:617-661 | without an answer the client gets the last failure, with leave to retry if and only if nothing refused, the failure may clear and its budget lasts; after a refusal, if it is still there, the answer of the first attempt that refused, unless the last failure stops the chain |
| RequestRuns.CaptureOnce | sse.go:346-516 | every capture that ends leaves a record in which one that wrote nothing has sent nothing, one that kept a refusal has written nothing, and a failure that counts as delivered was the last thing sent |
| RequestRuns.CapturesAreSilent | main.go:540-615 | the attempt loop takes a capture for committed if and only if it wrote, and one that is not committed has sent the client nothing |
| RequestRuns.OneVoice | main.go:325-661 | however many models are tried, the client receives the bytes of one attempt at most, and of none when an answer that was held is given |
| RequestRuns.CleanEnd | main.go:586-609 | a response that ends cleanly belongs to a capture that succeeded, or to one whose last frame sent is the upstream's own final error; any other response that was begun is cut off |
| FailureRules.ActionIs | main.go:1311-1341 | within a chain the next model is tried if and only if the account is good and the last model refused, broke off or does not exist, or a failure may clear that is neither the request's nor a shared limit; the original answer is given for rate limits, and for shared limits where neither model nor request is at fault |
| FailureRules.ReadInFallback | main.go:718-732 | reading an error during fallback keeps its type and status, and makes it final unless it is a safeguard refusal |
| FailureRules.ClaudeAnswer | main.go:617-636 | a client that is still there when an HTTP error ends a fallback chain gets the held answer, unless the error is terminal in itself and no safeguard refusal; then it gets it as final, with the upstream's own type and status |
| FailureRules.HandleClaude | main.go:325-661 | one request under these rules never surfaces such an error as a transient one |
| FallbackList.DedupKeepsOrder | main.go:1359-1378 | the deduplicated list has no model twice, loses none, and keeps the order of first mention |
| FallbackList.LoadFallbacks | main.go:1359-1378 | deduplicating in the array that is being read gives that list, or the first entry that is no Claude model |
| RetryDelay.ExtraBackoff | main.go:1180-1199 | the doubling loop gives the smaller of the cap and 2^i seconds without overflow |
| RetryDelay.LocalRetryDelay | main.go:1168-1178 | the wait is the advertised time plus backoff, saturating |
| RetryDelay.TakeApart | gemini_errors.go:184-200 | a text is taken apart into a duration if and only if it spells one |
| RetryDelay.RetryDelaySeconds | gemini_errors.go:184-212 | the result is the ceiling of the duration in seconds, or zero for any other text |
| RetryDelay.WaitAdvertised | main.go:1168-1178 | composed, the wait is at least the advertised duration up to saturation |

## Left out

- JSON decoding and encoding, phrase lists, whitespace trimming and error classification are given functions; their tables are finite and settled by case split.
- ToolJsonConservation.Conservation: where a ping overtakes undelivered text of its own block and none is dropped, the texts received differ at that moment (`InStepIff`), but might be equal again at the end by the texts themselves; this is left open.
- ToolJsonStreams.StreamConservation: a first record with a byte-order mark that is a fragment without text is excluded when it reads differently inside of the stream, because its own bytes are released there.
- Backfilling usage into message_start, usage counters, model names and log lines are not modelled; the theorems are about captures without a backfill.
- The engine holds its wire as a value; the wire objects themselves are modelled by `AnthropicWire.Adapter` and `GeminiWire.Wire`, and sharing of one wire object between engine and handler is not captured.
- Goroutines, channels and real timers are a list of turns in any order; which turn is ready when is not modelled, nor are flushes.
- Live writes to the client are assumed to succeed, as the program ignores their errors; a replay may be cut short at any byte.
- ResponsesCoalescer.Replayer.ReplayReader: the writer never fails, because a failing write only ends the replay early.
- Spool.Spool.Write: temporary-file calls are reduced to a byte sequence and one fault per write; closing and discarding a spool are left out.
- A request without capture statistics is not modelled; the refusal interception needs them.
- GeminiNumber.Int32OfText: quotes and null are handled before this point in the program and are not part of the model.
- GeminiWire.Wire.AcceptEvent: the chunk counter is unbounded, while the program's is 64 bits wide.
- RetryDelay.RetryDelaySeconds: seconds are unbounded, since the format's range fits the program's 64-bit integers.
- RetryLoop.Handler.Handle: whether a wait fits the deadlines, a sleep is cut short, or a swap still has time is an arbitrary boolean per attempt.
- FallbackList.LoadFallbacks: splitting the setting at commas and its off values are left out.
- RetryLoop.Handler.Finish: how a held refusal is written to the client (main.go:673-692) is not modelled, only that it is the answer given.
- Retry-After selection, surfaced status codes, request routing, header filtering, request archiving and configuration parsing are not modelled.
