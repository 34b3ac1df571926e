# A verified model of the South translators

South translates between one canonical chat and media form and many provider wires. This project
models its stateful cores in Dafny and proves what they promise, for every input, every chunking and
every run:

- `Base64`, `Base64Table`: the strict codec (RFC 4648) with its sliding decoder, a two-way inverse,
  and its two alphabets.
- `SseSplit`, `SseLines`, `SseParser`, `Wires`: the incremental event-stream splitter, the streams
  its lines spell, the parser shape built on it, and the three wires that use it, from raw bytes to
  events.
- `WireUsage`, `Messages`, `MessagesContent`, `MessagesFailure`: the Anthropic usage fold and stream
  machine, and what its events carry, read off the inputs.
- `InvokeStream`, `InvokeEnvelope`, `InvokeFailure`: the Bedrock InvokeModel parser over a byte
  buffer, the transparency of its envelope, and its failure frames.
- `Gemini`, `GeminiFrames`: the Gemini stream, its agreement with the buffered parse, and what both
  read from written frames.
- `GeminiTurns`, `GeminiSpeech`: the conversation a Gemini request carries, and what it says.
- `OpenAi`, `OpenAiContent`: usage evidence, the bookkeeping of a held finish, and what a stream
  says.
- `Replay`, `ReplayParts`, `OpenAiReplay`, `OpenAiTurns`: reasoning layouts as checked permutations,
  the replay round trip, and turns read back from their blocks.
- `Cues`: subtitle words and the greedy grouping, which is optimal when times never decrease.
- `WriteTracker`, `WriteRequest`: the HTTP/1.1 write observer, characterised over every trace and on
  every written request.
- `Patch`, `PatchHeader`: the exact patch applier, from lines, with its inverse.
- `Recipe`, `RecipeReading`, `Form`: the credential-recipe interpreter, what its rules read and why
  it stops, and its form encoding.

`Common`, `Text`, `Json`, `Utf8`, `Events` and `Chat` hold what these share. An object the source mutates is
a class whose methods are proved against a step function; the laws are lemmas about those functions.
`dafny verify dfyconfig.toml` checks everything.

One documented promise holds only under a condition, and two natural expectations fail; the exact
condition of each is proved:

- The splitter's notes say the first error is the same whatever the chunking
  (`crates/south-component-conformance/src/sse_split.rs:20-22`). The bound on an unread line is
  applied only after a push, so a line over 16 MiB that arrives together with its end is read and
  the same line cut in two is refused. `SseSplit.ChunkIndependentExact` states when this cannot
  happen, and `SseSplit.ShortLinesSuffice` what a caller can see from the bytes.
- One would expect every `Done` of an OpenAI stream to close a finish. A `[DONE]` marker emits a
  `Done` of its own when no finish came and an even number of markers did, when usage settled the
  last finish and an odd number of markers followed it, and when a marker settled it and a positive
  even number did. `OpenAi.LoneMarkersExact` states this for every stream, `OpenAi.BareMarker` and
  `OpenAi.SecondMarker` are two such streams, and `OpenAi.DoneExact` and `OpenAi.OneFinishOneDone`
  are what is left when the marker comes at most once and last.
- A consumer that keeps each cache tier by itself may be left with an old one, as
  `Messages.TiersGoStale` shows on two events. It ends with the stream's tier exactly when a report
  that brings the tier, as the first with a split at its total, has the largest total of all, or no
  report brings it (`WireUsage.ConsumerAgrees`); a consumer of the group as a whole is always right
  (`WireUsage.GroupAgrees`).

The recipe interpreter's clamp
(`crates/south-component-conformance/src/credential_recipe.rs:941-950`) narrows the host's lifetime
range for every recipe the manifest check lets through
(`crates/south-provider-api/src/credentials.rs:742-761`): `Recipe.MintedLife`. A minimum over 24
hours, which that check refuses, would widen it; `Recipe.TtlExact` has the exact condition of the
clamp alone.

A chunk is what a read returned and is never empty: the empty chunk is how the runtime spells the end
of the transport.

## Model

| member | source | states |
|---|---|---|
| Base64.Encode | crates/south-component-conformance/src/base64.rs:46-64 | the loop over groups of three writes the group-wise encoding, with `=` up to a multiple of four when padding is asked for |
| Base64.Decode | crates/south-component-conformance/src/base64.rs:67-103 | the sliding-accumulator loop returns the group-wise decoding, `None` on every text no encoder writes |
| Base64.DecodeInvertsEncode | crates/south-component-conformance/src/base64.rs:46-103 | decoding undoes encoding, in both alphabets, with any amount of padding the mode admits |
| Base64.EncodeInvertsDecode | crates/south-component-conformance/src/base64.rs:67-103 | whatever decodes is the encoding of its result followed by an admitted amount of padding |
| Base64.CanonicalExact | crates/south-component-conformance/src/base64.rs:67-103 | canonical mode accepts a text as `bytes` if and only if it is their padded encoding |
| Base64.IndifferentExact | crates/south-component-conformance/src/base64.rs:67-103 | indifferent mode accepts a text if and only if it is that encoding with some padding dropped |
| Base64.SlideMeaning | crates/south-component-conformance/src/base64.rs:85-102 | the bit window kept symbol by symbol computes the group-wise meaning, and its leftover bits are zero exactly when the last group is canonical |
| Base64.RegisterShift | crates/south-component-conformance/src/base64.rs:86-96 | the 16-bit accumulator always holds the pending bits at its low end and releases the same bytes |
| Base64.FromSextetsInverts | crates/south-component-conformance/src/base64.rs:46-103 | regrouping bytes into sextets and back is the identity |
| Base64.SextetsInverts | crates/south-component-conformance/src/base64.rs:46-103 | every accepted list of sextets is the one its bytes have |
| Base64Table.SymbolIsListed | crates/south-component-conformance/src/base64.rs:28-43 | the symbol of every six-bit value is the one its alphabet lists, for the standard and the URL-safe table |
| Base64Table.GroupIsNumber | crates/south-component-conformance/src/base64.rs:46-64 | three bytes and their four values are one 24-bit number, highest first |
| WriteTracker.ParseHeaderLoop | patches/reqwest-0.13.5-local-write/parser.rs:91-129 | the loop over header lines returns what the header says line by line; `WriteRequest.SplitInverts` says that these are the lines between CRLFs |
| WriteTracker.ParseHeaderExact | patches/reqwest-0.13.5-local-write/parser.rs:91-129 | a header reads as (id, length) if and only if its request line and its lines say so: one readable id, exactly one readable length, no transfer coding; `WriteRequest.RequestParses` states it for written headers without the line splitter |
| WriteTracker.StepsAppend | patches/reqwest-0.13.5-local-write/parser.rs:35-78 | the tracker is a monoid action of bytes: writing a then b leaves the state that writing a + b leaves |
| WriteTracker.StepsReachable | patches/reqwest-0.13.5-local-write/parser.rs:35-78 | the invariant of the tracker state survives every byte |
| WriteTracker.StepsBody | patches/reqwest-0.13.5-local-write/parser.rs:35-78 | body bytes are counted up to the declared length, and one more aborts the tracker |
| WriteTracker.CompleteExact | patches/reqwest-0.13.5-local-write/parser.rs:35-78 | a fresh tracker is complete with a report if and only if the bytes are one header of at most 65536 bytes ended by its first CRLFCRLF that parses to it, plus exactly its length in body bytes |
| WriteTracker.FlushExact | patches/reqwest-0.13.5-local-write/parser.rs:35-82 | over every interleaving of writes and flushes, each flush reports exactly when the bytes since the last report are one whole request |
| WriteTracker.AbortIsFinal | patches/reqwest-0.13.5-local-write/parser.rs:22-33 | after an abort no flush ever reports, whatever follows |
| WriteTracker.WriteTracker.constructor | patches/reqwest-0.13.5-local-write/parser.rs:17-20 | a new tracker is in the initial state |
| WriteTracker.WriteTracker.Abort | patches/reqwest-0.13.5-local-write/parser.rs:22-27 | aborting clears everything and disables the tracker |
| WriteTracker.WriteTracker.Accepted | patches/reqwest-0.13.5-local-write/parser.rs:35-78 | the byte loop over a chunk leaves the state of the bytes one by one, and reports completion |
| WriteTracker.WriteTracker.Flushed | patches/reqwest-0.13.5-local-write/parser.rs:80-83 | a flush takes the completed report and nothing else |
| WriteRequest.SplitInverts | patches/reqwest-0.13.5-local-write/parser.rs:93-97 | lines without CRLF, joined by CRLF, are split into exactly those lines |
| WriteRequest.RequestLineExact | patches/reqwest-0.13.5-local-write/parser.rs:93-97 | a first line is taken if and only if it is POST, a target and HTTP/1.1, or the two overlapping on one space |
| WriteRequest.HeaderBytesEnd | patches/reqwest-0.13.5-local-write/parser.rs:35-78 | the bytes of a written header end at its blank line and nowhere before, whatever body follows |
| WriteRequest.RequestParses | patches/reqwest-0.13.5-local-write/parser.rs:91-129 | a written header with any target and any fields in any order parses to (id, length) if and only if one field is the id after one space, one is the length, and none is a transfer coding |
| WriteRequest.WrittenIsRequest | patches/reqwest-0.13.5-local-write/parser.rs:35-129 | written header and body are one whole request for a report if and only if the fields say so, the header is within the bound and the body has that length |
| WriteRequest.WrittenIsReported | patches/reqwest-0.13.5-local-write/parser.rs:35-83 | written in any chunks and then flushed, such bytes are reported if and only if they are that request |
| WriteRequest.OneRequest | patches/reqwest-0.13.5-local-write/parser.rs:35-129 | a concrete request, names in mixed case, is reported |
| WireUsage.OfIsReport | crates/south-component-conformance/src/reference_anthropic.rs:656-721 | every usage object that is read has a tier split that is zero or adds up to its cache-write total |
| WireUsage.FoldExact | crates/south-component-conformance/src/reference_anthropic.rs:723-753 | folding reports succeeds if and only if the non-zero values of each bucket never decrease; then each bucket is its maximum and the tier split comes whole from one report |
| WireUsage.ConsumerAgrees | crates/south-component-conformance/src/reference_anthropic.rs:755-769 | a consumer that keeps the last non-zero value of each field ends with the folded input, output, cache-read and cache-write; over valid reports it ends with the folded 5-minute or 1-hour tier if and only if a report that brings the tier has the largest total, or no report brings it |
| WireUsage.TierExact | crates/south-component-conformance/src/reference_anthropic.rs:723-753 | the tier condition, on the wire reports alone: a report brings a tier when it is the first with a split at its total and the tier is in it |
| WireUsage.FoldedTier | crates/south-component-conformance/src/reference_anthropic.rs:723-753 | the folded tier is non-zero if and only if a report that brings it has the largest total |
| WireUsage.GroupAgrees | crates/south-component-conformance/src/reference_anthropic.rs:723-753 | a consumer that keeps the cache-write total and its two tiers as one group ends with the folded group |
| WireUsage.UsageWritten | crates/south-component-conformance/src/reference_anthropic.rs:656-769 | every usage object written from consistent counts is read back, and the input passed on is the uncached part with both cache buckets |
| WireUsage.CountsRequired | crates/south-component-conformance/src/reference_anthropic.rs:656-721 | which counts each kind of report must carry, and which must be readable numbers |
| Messages.BlocksTrace | crates/south-component-conformance/src/reference_anthropic.rs:833-925 | in every error-free run each block index traces a prefix of one start, deltas and one stop, and is open exactly between them |
| Messages.FeedExact | crates/south-component-conformance/src/reference_anthropic.rs:948-1035 | after any accepted history that has not closed the stream an event is accepted if and only if the inputs before it make it legal: blocks start once, deltas and stops hit open blocks, a terminal finds none open, and usage never decreases |
| Messages.RunExact | crates/south-component-conformance/src/reference_anthropic.rs:948-1050 | a whole run is error-free if and only if every input up to the one that closes the stream is legal after those before it, all read off the inputs |
| Messages.ClosedExact | crates/south-component-conformance/src/reference_anthropic.rs:934-1035 | an accepted history has closed the stream if and only if it holds a framing failure, or an `error` event before which the last stopping `message_delta` carried no usage object or there was none |
| Messages.FeedEvents | crates/south-component-conformance/src/reference_anthropic.rs:948-1035 | the events of one input are content, one settled terminal or one closing failure; a finish leaves only on a `message_delta` with no block open |
| Messages.WholeRunSettles | crates/south-component-conformance/src/reference_anthropic.rs:948-1050 | every finish is followed by at most one usage report and then `Done`, every `Done` closes a finish, and nothing follows an error |
| Messages.RunUsage | crates/south-component-conformance/src/reference_anthropic.rs:889-893 | every emitted usage report is the fold of all wire reports so far |
| Messages.ConsumerKeepsUsage | crates/south-component-conformance/src/reference_anthropic.rs:889-893 | a last-non-zero consumer of the emitted reports ends with the four counts of the stream, with a tier under the condition on the wire reports, and a consumer of the cache-write group with the whole group |
| Messages.TiersGoStale | crates/south-component-conformance/src/reference_anthropic.rs:723-753 | two concrete events, a `message_start` with a split and a stopping `message_delta` with a larger total and none, after which a consumer of the single 5-minute tier is left with the old one |
| Messages.AnthropicSseParser.constructor | crates/south-component-conformance/src/reference_anthropic.rs:777-797 | a new parser is in the initial state |
| Messages.AnthropicSseParser.OpenBlock | crates/south-component-conformance/src/reference_anthropic.rs:833-839 | opening marks an index open and seen, or refuses one seen before |
| Messages.AnthropicSseParser.CloseBlock | crates/south-component-conformance/src/reference_anthropic.rs:851-857 | closing removes an open index, or refuses |
| Messages.AnthropicSseParser.TakePendingFinish | crates/south-component-conformance/src/reference_anthropic.rs:869-887 | the pending finish is taken once, with its reason and stop sequence |
| Messages.AnthropicSseParser.ReportUsage | crates/south-component-conformance/src/reference_anthropic.rs:889-893 | a usage object is read, folded and reported whole |
| Messages.AnthropicSseParser.Fail | crates/south-component-conformance/src/reference_anthropic.rs:934-946 | a failure closes the stream with one error event |
| Messages.AnthropicSseParser.MessageDelta | crates/south-component-conformance/src/reference_anthropic.rs:1001-1019 | the mutable handling of a `message_delta` is the step function: state and events |
| Messages.AnthropicSseParser.Dispatch | crates/south-component-conformance/src/reference_anthropic.rs:948-1035 | the mutable dispatch of any event is the step function: state and events; what those events carry over whole runs is in `MessagesContent` and `MessagesFailure` |
| Messages.AnthropicSseParser.Settle | crates/south-component-conformance/src/reference_anthropic.rs:1037-1050 | the end of the transport settles a pending finish exactly once |
| MessagesContent.RunSends | crates/south-component-conformance/src/reference_anthropic.rs:895-1000 | on every channel (the answer, or the thinking, signature or call arguments of one block) the pieces of an error-free run, concatenated, are those its inputs bring up to the one that closes the stream |
| MessagesContent.WholeRunSends | crates/south-component-conformance/src/reference_anthropic.rs:895-1050 | the same up to and including the end of the transport |
| MessagesContent.RunChoice | crates/south-component-conformance/src/reference_anthropic.rs:895-1000 | every content event belongs to choice zero |
| MessagesContent.RunTags | crates/south-component-conformance/src/reference_anthropic.rs:895-1000 | the call deltas and redacted blocks are those of the inputs, in order, with the ids, names and data they carry |
| MessagesContent.CallOpens | crates/south-component-conformance/src/reference_anthropic.rs:948-1000 | the first call delta of a block started as a tool use has the id and name of that start |
| MessagesContent.ReasonSpells | crates/south-component-conformance/src/reference_anthropic.rs:948-1019 | a finish reason spells the wire word it came from, and is an unnamed one exactly for an unlisted word |
| MessagesContent.RunEndings | crates/south-component-conformance/src/reference_anthropic.rs:1001-1019 | the finishes of a run say the words and stop sequences of the stops that carried usage, in order, and what is held is the last stop without usage |
| MessagesContent.WholeRunEndings | crates/south-component-conformance/src/reference_anthropic.rs:1001-1050 | the same at the end of the transport, which adds the stop still held |
| MessagesFailure.CodesListed | crates/south-component-conformance/src/reference_anthropic.rs:1115-1124 | the code of every error type, named or not |
| MessagesFailure.RunFailures | crates/south-component-conformance/src/reference_anthropic.rs:934-1035 | the errors of a run are the failure of the input that closes it, with its code and with its message unless that is over 256 characters |
| MessagesFailure.FailsOnce | crates/south-component-conformance/src/reference_anthropic.rs:934-946 | one failure is reported when the stream is closed, and none otherwise |
| MessagesFailure.WholeRunFailures | crates/south-component-conformance/src/reference_anthropic.rs:934-1050 | the end of the transport adds no failure |
| InvokeStream.BoundaryStable | crates/south-component-conformance/src/reference_anthropic.rs:807-816 | the first frame boundary of a buffer stays the first when bytes are appended |
| InvokeStream.FrameFields | crates/south-component-conformance/src/reference_anthropic.rs:819-830 | the loop over a frame's lines keeps the last event and the last data field |
| InvokeStream.DrainAppend | crates/south-component-conformance/src/reference_anthropic_bedrock_invoke.rs:103-150 | draining a longer buffer continues where draining its prefix stopped |
| InvokeStream.FeedIsDrain | crates/south-component-conformance/src/reference_anthropic_bedrock_invoke.rs:103-150 | feeding chunks one by one is draining their concatenation once |
| InvokeStream.ChunkingIrrelevant | crates/south-component-conformance/src/reference_anthropic_bedrock_invoke.rs:103-150 | for every byte stream and every cut of it into chunks followed by the end of input, the outcome is the same: all events, or the same first error |
| InvokeStream.DrainRuns | crates/south-component-conformance/src/reference_anthropic_bedrock_invoke.rs:71-150 | draining a buffer runs the Messages machine on exactly the inputs its whole frames carry, in order, after those before |
| InvokeStream.StreamSettles | crates/south-component-conformance/src/reference_anthropic_bedrock_invoke.rs:103-150 | every error-free stream is a whole run on the inputs its frames carry; it settles its finishes and ends at a reported failure |
| InvokeStream.InvokeStreamParser.constructor | crates/south-component-conformance/src/reference_anthropic_bedrock_invoke.rs:63-70 | a new parser holds no bytes and a fresh Messages parser |
| InvokeStream.InvokeStreamParser.ChunkEvents | crates/south-component-conformance/src/reference_anthropic_bedrock_invoke.rs:78-100 | one envelope is decoded and fed to the Messages parser, as the frame's input says |
| InvokeStream.InvokeStreamParser.Frame | crates/south-component-conformance/src/reference_anthropic_bedrock_invoke.rs:113-147 | one frame: a chunk, an exception that fails the stream, or a frame that is ignored |
| InvokeStream.InvokeStreamParser.ParseChunk | crates/south-component-conformance/src/reference_anthropic_bedrock_invoke.rs:103-150 | the while loop over the tail buffer leaves the drained state, tail and events |
| InvokeEnvelope.WrapBoundary | fuzz/fuzz_targets/contract_parsers.rs:236-256 | a wrapped event is one frame, whatever bytes follow it |
| InvokeEnvelope.WrapInput | fuzz/fuzz_targets/contract_parsers.rs:236-256 | a wrapped event feeds the machine exactly that event |
| InvokeEnvelope.WrapDrain | fuzz/fuzz_targets/contract_parsers.rs:258-286 | a wrapped event in front of any buffer gives the event's own step and then the rest |
| InvokeEnvelope.EnvelopeTransparent | fuzz/fuzz_targets/contract_parsers.rs:236-286 | a buffer of wrapped events drains to what the events give the Messages machine directly |
| InvokeEnvelope.WrappedStream | fuzz/fuzz_targets/contract_parsers.rs:258-286 | however a stream of wrapped events is cut into chunks, it gives what the events give directly |
| InvokeFailure.ExceptionExact | crates/south-component-conformance/src/reference_bedrock_converse.rs:1256-1270 | an exception name has a code if and only if it is listed with it, its first letter in either case |
| InvokeFailure.ExceptionReads | crates/south-component-conformance/src/reference_anthropic_bedrock_invoke.rs:132-136 | a written exception frame is the failure its name says, an unlisted name being internal, with its message |
| InvokeFailure.ErrorReads | crates/south-component-conformance/src/reference_anthropic_bedrock_invoke.rs:137-142 | a written error frame is a failure of the upstream with its message |
| InvokeFailure.OtherReads | crates/south-component-conformance/src/reference_anthropic_bedrock_invoke.rs:143-146 | a written frame of any other event feeds nothing |
| InvokeFailure.CrlfFields | crates/south-component-conformance/src/reference_anthropic.rs:819-830 | a frame of CRLF lines carries the same fields as one of LF lines |
| InvokeFailure.FailureEnds | crates/south-component-conformance/src/reference_anthropic_bedrock_invoke.rs:113-147 | a failure frame closes an open stream with that one error |
| SseSplit.ChunkIndependentExact | crates/south-component-conformance/src/sse_split.rs:1-30 | for a stream and each of its prefixes, the frames and the first refusal are independent of the chunking if and only if no line over the size bound can slip through whole |
| SseSplit.LongCommentHides | crates/south-component-conformance/src/sse_split.rs:131-155 | a concrete stream on which they do depend on it: a comment line one byte over the bound |
| SseSplit.ShortLinesSuffice | crates/south-component-conformance/src/sse_split.rs:131-155 | a stream whose bytes hold no stretch over the bound without a line end is independent of the chunking |
| SseSplit.PushesAreBytes | crates/south-component-conformance/src/sse_split.rs:103-156 | otherwise pushing chunks is reading their bytes one by one under one bound |
| SseSplit.Stuck | crates/south-component-conformance/src/sse_split.rs:131-155 | once an unread line is over the bound no further frame comes out of it |
| SseSplit.SseSplitter.constructor | crates/south-component-conformance/src/sse_split.rs:87-94 | a new splitter is in the initial state |
| SseSplit.SseSplitter.ReadLine | crates/south-component-conformance/src/sse_split.rs:178-209 | one line updates the pending event or dispatches it |
| SseSplit.SseSplitter.Extend | crates/south-component-conformance/src/sse_split.rs:114-130 | a chunk joins the tail and the byte-order mark is settled once |
| SseSplit.SseSplitter.ReadOne | crates/south-component-conformance/src/sse_split.rs:134-149 | one whole line of the tail is checked and read |
| SseSplit.SseSplitter.ReadLines | crates/south-component-conformance/src/sse_split.rs:131-151 | the loop over the tail reads every whole line, as the byte machine does |
| SseSplit.SseSplitter.PushInto | crates/south-component-conformance/src/sse_split.rs:103-156 | a push appends, reads and bounds: frames, refusal and state |
| SseSplit.SseSplitter.EndInput | crates/south-component-conformance/src/sse_split.rs:165-175 | the end of input reads the last line and dispatches what is held |
| SseLines.SpelledReads | crates/south-component-conformance/src/sse_split.rs:131-150 | lines written with LF, CR or CRLF ends are read as those lines, unless a bare line feed follows a carriage return |
| SseLines.WrittenReads | crates/south-component-conformance/src/sse_split.rs:178-209 | events written as lines, with comments between them and with or without the byte-order mark, are dispatched as those events in order and leave nothing behind |
| SseLines.WrittenStream | crates/south-component-conformance/src/sse_split.rs:1-30 | the same for every cut into chunks when no line is over the bound, the end of input included |
| SseLines.FramesAreText | crates/south-component-conformance/src/sse_split.rs:135-137 | every event a caller sees is UTF-8 in both fields, however the stream was cut and wherever it was refused |
| SseParser.JudgeFrames | crates/south-component-conformance/src/gemini_text.rs:688-698 | the loop over completed frames stops at the first the wire refuses |
| SseParser.ParseReports | crates/south-component-conformance/src/gemini_text.rs:674-701 | judging chunk by chunk reports the first error in byte order, splitter refusals after the frames before them |
| SseParser.ChunkingIrrelevant | crates/south-component-conformance/src/gemini_text.rs:674-701 | for any wire over the splitter, every chunking gives the same events or the same first error, under the exact condition above |
| SseParser.StreamJudges | crates/south-component-conformance/src/reference.rs:1022-1046 | an accepted stream is the wire's account of every frame the splitter saw and then of the end of input |
| Wires.MessagesStream | crates/south-component-conformance/src/reference_anthropic.rs:1073-1113 | an accepted Messages byte stream, however chunked, is a whole run of the machine: finishes settle, `Done` closes, nothing follows an error |
| Wires.GeminiStream | crates/south-component-conformance/src/gemini_text.rs:674-701 | an accepted Gemini byte stream is a run of the machine: content, then nothing or one terminal |
| Wires.OpenAiStream | crates/south-component-conformance/src/reference.rs:994-1046 | an accepted OpenAI byte stream is a whole run: its finishes settle and are exactly the unsuperseded ones, with their reasons in order, and every `Done` closes one if and only if no marker stands alone |
| Wires.FrameTexts | crates/south-component-conformance/src/sse_split.rs:30-38 | the text of every dispatched field exists and has exactly the field's bytes |
| SseLines.UnnamedReads | crates/south-component-conformance/src/sse_split.rs:178-209 | data lines without an event line dispatch an event of the default name |
| SseLines.NameForgotten | crates/south-component-conformance/src/sse_split.rs:178-209 | an event line without data dispatches nothing and its name is forgotten at the blank line |
| Wires.NamesSpelled | crates/south-component-conformance/src/sse_split.rs:178-209 | the bytes the splitter looks for are the UTF-8 of the field names, the default name and the byte-order mark |
| Replay.CheckIds | crates/south-component-conformance/src/reasoning_replay.rs:32-37 | the map of call ids is built if and only if ids are non-empty and distinct |
| Replay.Order | crates/south-component-conformance/src/reasoning_replay.rs:38-80 | the marking loop returns an order if and only if the layout names every part and every call exactly once and every part can be replayed |
| Replay.ValidatedLayout | crates/south-component-conformance/src/reasoning_replay.rs:13-82 | no markers give nothing, a valid layout gives its order, anything else is an error |
| Replay.LayoutUnique | crates/south-component-conformance/src/reasoning_replay.rs:13-82 | a message has at most one valid order |
| Replay.ParseAnswer | crates/south-component-conformance/src/reference_anthropic.rs:1241-1307 | the loop over answer blocks collects parts, calls and layout; `Replay.PlainAnswer` and `Replay.AnyAnswerReplays` read the message off the wire blocks |
| Replay.LayoutOfAnswer | crates/south-component-conformance/src/reference_anthropic.rs:1241-1307 | the collected layout validates if and only if size, ids and signatures allow it, and then orders the blocks as they came |
| Replay.AssistantTurn | crates/south-component-conformance/src/reference_anthropic.rs:410-443 | rendering follows the validated layout, or content and then calls without one |
| Replay.RoundTripExact | crates/south-component-conformance/src/reference_anthropic.rs:373-443 | an answer with reasoning is replayed if and only if it has at most 128 blocks, non-empty signatures, distinct non-empty ids and non-empty names; then the next request carries the same blocks in the same order |
| Replay.AnyAnswerReplays | crates/south-component-conformance/src/reference_anthropic.rs:1241-1307 | any answer with reasoning, whatever else is in it: replayed if and only if the blocks the reader takes of it may be, and then those come back in order, without blocks of other types and without unknown members |
| OpenAiReplay.CheckItems | crates/south-component-conformance/src/reasoning_replay.rs:105-146 | the loop accepts items if and only if each is valid and they fit the message bound |
| OpenAiReplay.OrderTurn | crates/south-component-conformance/src/reasoning_replay.rs:152-203 | the marking loop returns an order if and only if every item, text and call is named exactly once and only unsigned thinking is left out |
| OpenAiReplay.OpenAiLayout | crates/south-component-conformance/src/reasoning_replay.rs:127-203 | another family gives nothing; a turn of the family gives its order if and only if it is a valid turn |
| Replay.PlainAnswer | crates/south-component-conformance/src/reference_anthropic.rs:1241-1307 | an answer without reasoning becomes a message whose content is absent exactly when no block is a text, and otherwise the concatenated texts of the text blocks, with the calls of its tool uses in order, all read off the wire blocks |
| Replay.PlainTurn | crates/south-component-conformance/src/reference_anthropic.rs:395-443 | the next turn carries that text as one block unless it is empty, and then the calls in order, and is refused if and only if a call lacks an id or a name |
| ReplayParts.ImageSaid | crates/south-component-conformance/src/reference_anthropic.rs:249-270 | an image block reads back as its URL and marker, and is inline if and only if the URL carries Base64 data |
| ReplayParts.PartsTurn | crates/south-component-conformance/src/reference_anthropic.rs:242-330 | the turn of a message without markers reads back as its parts with their cache markers, without redacted thinking and without signatures, and then its calls |
| OpenAiTurns.ItemExact | crates/south-component-conformance/src/reasoning_replay.rs:105-122 | a reasoning item is valid if and only if it is written with the five members in their shapes, a non-empty id and a replayable encrypted content, whose bytes are its size |
| OpenAiTurns.LayoutReads | crates/south-component-conformance/src/reasoning_replay.rs:152-203 | a layout written from references reads back as those references, and covers the turn if and only if they name every item, text and call once |
| Gemini.UsageExact | crates/south-component-conformance/src/gemini_text.rs:422-466 | usage is read if and only if every count is readable, cached is within prompt and the total closes; then input + output is the total, cached is within input and reasoning within output |
| Gemini.RunGrammar | crates/south-component-conformance/src/gemini_text.rs:608-671 | every error-free run emits content and then nothing, or `Finish`, the last frame's usage if it carries one, `Done` |
| Gemini.RunCounts | crates/south-component-conformance/src/gemini_text.rs:589-606 | every count any frame reports is at most the highest seen at the end |
| Gemini.TerminalCountsDominate | crates/south-component-conformance/src/gemini_text.rs:589-606 | the terminal frame's six counts are at least every value reported in any frame |
| Gemini.PartsAgree | crates/south-component-conformance/src/gemini_text.rs:618-648 | streamed parts fold to the buffered reading: same text, thinking, calls, ids, arguments and signatures, or the same error; `Gemini.BufferReads` and `Gemini.StreamReads` say what each reads off the JSON members |
| Gemini.OpenRun | crates/south-component-conformance/src/gemini_text.rs:608-656 | frames without a finish reason emit exactly their parts |
| Gemini.StreamAgrees | crates/south-component-conformance/src/gemini_text.rs:705-784 | one candidate cut into any frames, the last with finish reason and usage: an accepted stream folds to the buffered parse, same finish reason and usage |
| Gemini.StreamExact | crates/south-component-conformance/src/gemini_text.rs:589-671 | the stream accepts one candidate cut into frames if and only if the buffered parse accepts it whole and no count a frame carries is lower than in the last earlier frame carrying it, the terminal's omitted counts reading zero |
| Gemini.ReadBuffer | crates/south-component-conformance/src/gemini_text.rs:718-747 | the buffered loop over parts fails exactly on a call with a bad signature; otherwise its texts, thoughts with signatures and calls are those of the parts, by their JSON members and in order |
| Gemini.GeminiSseParser.constructor | crates/south-component-conformance/src/gemini_text.rs:548-558 | a new parser has seen no call and no count |
| Gemini.GeminiSseParser.HoldCounts | crates/south-component-conformance/src/gemini_text.rs:589-606 | the loop over the six counts raises the array or refuses a decrease |
| Gemini.GeminiSseParser.ReadParts | crates/south-component-conformance/src/gemini_text.rs:614-648 | the loop over parts emits events that say the texts, thoughts and calls of the parts, by their JSON members and in order, and counts the calls |
| Gemini.GeminiSseParser.ReadFrame | crates/south-component-conformance/src/gemini_text.rs:608-671 | the mutable handling of a frame is the step function: state and events, or the same error |
| GeminiTurns.NameMapExact | crates/south-component-conformance/src/gemini_text.rs:115-122 | the name kept for a call id is that of the last call carrying it |
| GeminiTurns.NamesExact | crates/south-component-conformance/src/gemini_text.rs:115-122 | every call is found under its own name if and only if calls that share an id share a name |
| GeminiTurns.SyntheticInjective | crates/south-component-conformance/src/gemini_text.rs:474-476 | a synthetic id determines position and name |
| GeminiTurns.SyntheticConsistent | crates/south-component-conformance/src/gemini_text.rs:474-476 | calls with synthetic ids that share an id share a name |
| GeminiTurns.StepsExact | crates/south-component-conformance/src/gemini_text.rs:196-301 | a conversation is accepted if and only if every message alone is; then the contents carry the same parts under the same roles in the same order, spoken turns stay whole, and no two result turns touch |
| GeminiTurns.ResultsInOrder | crates/south-component-conformance/src/gemini_text.rs:261-297 | the result parts of the contents, in order, are the tool messages in order |
| GeminiTurns.ResultNamesItsCall | crates/south-component-conformance/src/gemini_text.rs:261-297 | when equal ids mean equal names, the i-th result is keyed by the name of every call with its id |
| GeminiTurns.SyntheticResults | crates/south-component-conformance/src/gemini_text.rs:468-476 | with synthetic ids each result is keyed by its call's name even when ids repeat across turns |
| GeminiTurns.AnswerReplays | crates/south-component-conformance/src/gemini_text.rs:204-260 | the calls read from an answer go back if and only if the content has a rendering and every call a name; then in order, with their own signatures or the placeholder on the first when none is signed, each as the same call if and only if its arguments are left out or an object, and with an empty object otherwise |
| GeminiTurns.SpeakParts | crates/south-component-conformance/src/gemini_text.rs:204-257 | the loop over a message's calls with its two flags builds the specified parts |
| GeminiTurns.BuildConversation | crates/south-component-conformance/src/gemini_text.rs:196-301 | the loop over messages, growing the last turn in place, builds the specified conversation or its first error |
| Gemini.CallExact | crates/south-component-conformance/src/gemini_text.rs:620-636 | a call part is read if and only if its signature is absent or a non-empty text; its id, name, rendered arguments and signature are those of its members |
| Gemini.BufferReads | crates/south-component-conformance/src/gemini_text.rs:718-747 | the buffered reading of parts: accepted if and only if every call is well signed; its texts are those of the parts without a call whose `thought` is not true, its thoughts those whose `thought` is true, its calls the call parts, each in order |
| Gemini.StreamReads | crates/south-component-conformance/src/gemini_text.rs:614-648 | the streamed reading of parts, from any number of calls on: same acceptance, and events that say the same texts, thoughts and calls |
| GeminiFrames.CountExact | crates/south-component-conformance/src/gemini_text.rs:394-401 | a count is read if and only if it is absent, null or in the range of u64, and is zero when it is not there |
| GeminiFrames.UsageReads | crates/south-component-conformance/src/gemini_text.rs:422-466 | written counts read back: tools in the input, thoughts in the output and as reasoning |
| GeminiFrames.ReasonExact | crates/south-component-conformance/src/gemini_text.rs:378-392 | what every finish word means, with and without a call in the answer |
| GeminiFrames.FrameReads | crates/south-component-conformance/src/gemini_text.rs:569-587 | a written frame reads back as its parts, its finish word and its usage metadata |
| GeminiFrames.AnswerStreams | crates/south-component-conformance/src/gemini_text.rs:608-671 | a written answer, however it is cut into frames, streams the texts, thoughts and calls of its parts in order and then its finish reason, its counts and `Done` |
| GeminiFrames.AnswerBuffers | crates/south-component-conformance/src/gemini_text.rs:705-784 | the same answer whole: accepted if and only if its calls are well signed, with the same reading, reason and counts |
| GeminiSpeech.ImageHeard | crates/south-component-conformance/src/gemini_text.rs:137-158 | an image part reads back as its URL, and is inline if and only if the URL carries Base64 data |
| GeminiSpeech.ConversationHeard | crates/south-component-conformance/src/gemini_text.rs:137-301 | the turns of an accepted conversation, read back from their JSON members, say what the messages mean in order: the assistant as `model`, user and tool results as `user`, with texts, thoughts, images, calls with arguments and signatures, and results by name |
| GeminiSpeech.ResultWhole | crates/south-component-conformance/src/gemini_text.rs:261-297 | the text of a tool result: its texts run together, or on lines when they carry a cache marker |
| GeminiSpeech.SystemHeard | crates/south-component-conformance/src/gemini_text.rs:172-301 | the system instruction is the texts of the system messages in order |
| Cues.ElevenlabsWords | crates/south-component-conformance/src/asr_shared.rs:601-625 | the loop over entries succeeds if and only if every entry is usable; its words are the word entries in order, each with its text, times and speaker |
| Cues.ReadingsConserve | crates/south-component-conformance/src/asr_shared.rs:601-625 | no word text and no spacing is lost, repeated or moved |
| Cues.WordCues | crates/south-component-conformance/src/asr_shared.rs:627-662 | the loop with one open cue returns cues that show consecutive runs of the words: first start, last end, the spoken text between them, within every limit; and when times never decrease no such list of cues is shorter |
| Cues.EndsGroup | crates/south-component-conformance/src/asr_shared.rs:627-662 | the runs partition the words in order, and each obeys the gap, speaker, duration, length and sentence limits |
| Cues.GroupingConserves | crates/south-component-conformance/src/asr_shared.rs:627-662 | every word text is in exactly one cue, in order |
| Cues.FewestCues | crates/south-component-conformance/src/asr_shared.rs:627-662 | when starts and ends never decrease, no grouping within the limits has fewer cues |
| Cues.TimesMatter | crates/south-component-conformance/src/asr_shared.rs:627-662 | a concrete word list with a decreasing end on which the loop is not optimal |
| Cues.ReadingsExact | crates/south-component-conformance/src/asr_shared.rs:601-625 | a list of entries is read if and only if each is usable, and its words are its word entries |
| Cues.CuesShow | crates/south-component-conformance/src/asr_shared.rs:627-662 | the cues of the greedy runs show consecutive runs, with their times, text and limits stated on the words |
| Cues.ShownIsRun | crates/south-component-conformance/src/asr_shared.rs:627-662 | conversely, whatever a cue within the limits shows is a run of the loop's own conditions |
| Cues.FewestShown | crates/south-component-conformance/src/asr_shared.rs:627-662 | when times never decrease no list of cues within the limits is shorter |
| Patch.ApplyExact | scripts/prepare_observed_reqwest.py:120-164 | a hunk list is accepted on f and gives g if and only if both are its two sides woven between the same kept lines, every hunk counted and where it says it is |
| Patch.ReverseUndoes | scripts/prepare_observed_reqwest.py:120-164 | a hunk list takes f to g if and only if its reverse takes g to f |
| Patch.ApplyGrows | scripts/prepare_observed_reqwest.py:120-164 | the patched file has as many more lines as the hunks declare |
| Patch.ApplyLinesExact | scripts/prepare_observed_reqwest.py:123-164 | reading and applying together accepts exactly what reading all hunks first and applying them after accepts |
| Patch.HeaderReads | scripts/prepare_observed_reqwest.py:32 | a written hunk header matches and reads back |
| Patch.BodyReads | scripts/prepare_observed_reqwest.py:139-154 | a written body reads back whatever ends it: a removed line that looks like a file header is not taken for one |
| Patch.HunksRead | scripts/prepare_observed_reqwest.py:123-154 | written hunks read back, no-newline markers included |
| Patch.FileExact | scripts/prepare_observed_reqwest.py:120-171 | one file of a patch is accepted if and only if its lines read as at least one hunk, the hunks apply, and a deletion leaves nothing |
| Patch.FileUndone | scripts/prepare_observed_reqwest.py:120-171 | the reversed text of an accepted file patch is accepted on the result and restores the original; reversing a creation is a deletion |
| Patch.ReadBody | scripts/prepare_observed_reqwest.py:138-152 | the loop over body lines collects the pieces and where they end |
| Patch.ApplyHunk | scripts/prepare_observed_reqwest.py:124-163 | one turn of the hunk loop places, reads, checks and applies one hunk, with its errors in order |
| Patch.PatchFile | scripts/prepare_observed_reqwest.py:120-171 | the hunk loop over index and cursor returns the specified file or its first error |
| PatchHeader.HeaderExact | scripts/prepare_observed_reqwest.py:32 | a line is a hunk header if and only if it is spelled as one, counts optional and one when left out, any text after the second marks |
| Recipe.RunExact | crates/south-component-conformance/src/credential_recipe.rs:572-654 | every run executes a legal and maximal chain of steps from the first one on, and its requests are those steps' requests in order |
| Recipe.RunPositions | crates/south-component-conformance/src/credential_recipe.rs:572-654 | executed positions strictly increase, so requests are at most one per step; a later goto target runs only directly after a step whose status mapped to a goto naming it |
| Recipe.ExecuteEntry | crates/south-component-conformance/src/credential_recipe.rs:531-551 | a jump only follows a status whose transition is that goto, and goes forward to the first step of that id |
| Recipe.ExtractExact | crates/south-component-conformance/src/credential_recipe.rs:810-866 | extraction succeeds if and only if every rule fits; each rule that reads a value leaves it under its own name and no other output changes |
| Recipe.ExtractClocks | crates/south-component-conformance/src/credential_recipe.rs:810-836 | the step's clock ends with the expiry of its last rule that reads one, and no other clock changes |
| Recipe.RunMade | crates/south-component-conformance/src/credential_recipe.rs:810-866 | every output of a run is the token a passed step signed or the value one of its rules read from the response to its request, and every clock the expiry a passed step's last clock rule read |
| Recipe.MintSound | crates/south-component-conformance/src/credential_recipe.rs:893-970 | a minted value is the first candidate on offer after an unstopped run; an output it presents is what a passed step signed or read, which is the step whose clock is read if and only if its id holds no dot, and a clock that is read was set by a passed step |
| Recipe.TtlExact | crates/south-component-conformance/src/credential_recipe.rs:939-951 | a minted life is at least the host minimum, and at most the host maximum if and only if the recipe's own minimum is not past it; a life within the bounds is kept |
| Recipe.MintedLife | crates/south-provider-api/src/credentials.rs:742-761 | with bounds the manifest check lets through, every minted value expires within the host range and within the recipe's own bounds |
| Recipe.MinimumWidens | crates/south-component-conformance/src/credential_recipe.rs:939-951 | a concrete minimum, which the manifest check refuses, at which the clamp alone would widen the host range |
| Recipe.Runner.constructor | crates/south-component-conformance/src/credential_recipe.rs:424-433 | a new run has no outputs and no clocks |
| Recipe.Runner.Extract | crates/south-component-conformance/src/credential_recipe.rs:810-866 | the loop over rules fills outputs and clocks as specified, or stops with the same outcome |
| Recipe.Runner.ExecuteStep | crates/south-component-conformance/src/credential_recipe.rs:592-652 | one turn of the loop: unmet fields, signing, exchange, and the four transitions |
| Recipe.Runner.Steps | crates/south-component-conformance/src/credential_recipe.rs:572-654 | the loop with its position and way of entry terminates with the specified requests, steps and outputs |
| Recipe.TransitionExact | crates/south-component-conformance/src/credential_recipe.rs:531-551 | the transition of every status: its own entry, a plain 2xx, the entry of its class, and then new credentials at 4xx and a later try elsewhere |
| RecipeReading.ClockExact | crates/south-component-conformance/src/credential_recipe.rs:869-890 | a rule is a clock if and only if it has a clock form, and its expiry is the time its first form reads: seconds from now, seconds, milliseconds, the expiry of a token, or the fixed window |
| RecipeReading.PlainExact | crates/south-component-conformance/src/credential_recipe.rs:810-866 | the value of any other rule: the claim of a token or the pointer, and never null |
| RecipeReading.YieldMeans | crates/south-component-conformance/src/credential_recipe.rs:810-866 | what a rule yields: its time or the default one, its value, nothing when it is optional, and otherwise a transient failure |
| RecipeReading.FitsExact | crates/south-component-conformance/src/credential_recipe.rs:810-866 | a rule with a field to equal fits if and only if the text of its value is the stored field, or none is stored |
| RecipeReading.ExtractFails | crates/south-component-conformance/src/credential_recipe.rs:810-866 | extraction fails if and only if some rule does not fit, with the outcome of the first such rule |
| RecipeReading.MissingExact | crates/south-component-conformance/src/credential_recipe.rs:593-607 | no field is missing if and only if all are stored; otherwise it is the first that is not |
| RecipeReading.StopExact | crates/south-component-conformance/src/credential_recipe.rs:592-652 | a step stops the run if and only if a required field is missing, signing or rendering fails, no response comes, or the response says so, with the outcome of that reason |
| RecipeReading.OfferExact | crates/south-component-conformance/src/credential_recipe.rs:893-937 | what a candidate presents: a text output that is not empty with the clock of the step its name spells or the default, or a stored field with its own validity |
| Form.EscapesRead | crates/south-component-conformance/src/credential_recipe.rs:987-1002 | no escaped text holds a separator, and reading it gives back the bytes |
| Form.EscapeExact | crates/south-component-conformance/src/credential_recipe.rs:987-1002 | which bytes stay, that a space becomes `+`, and the two hexadecimal digits of every other byte |
| Form.FormReads | crates/south-component-conformance/src/credential_recipe.rs:986-1009 | every list of parameters is read back from its form text |
| Form.FormUnambiguous | crates/south-component-conformance/src/credential_recipe.rs:986-1009 | equal form texts come from equal names and value texts |
| Form.EncodeText | crates/south-component-conformance/src/credential_recipe.rs:987-1002 | the byte loop writes the specified escapes |
| Form.FormText | crates/south-component-conformance/src/credential_recipe.rs:986-1009 | the joined pairs are the specified text, which reads back as the parameters |
| OpenAi.UsageExact | crates/south-component-conformance/src/reference.rs:749-827 | usage is read if and only if its counts are readable, the total closes with or without orchestration input, every subset is within its whole and nothing overflows |
| OpenAi.UsageMeans | crates/south-component-conformance/src/reference.rs:749-827 | orchestration folds into both buckets, cached and written parts are within the input, and the explicit reads are all or none of the cached ones |
| OpenAi.FrameEffect | crates/south-component-conformance/src/reference.rs:881-985 | every accepted frame keeps a held finish and an emitted `Done` apart, lets a held finish go exactly with usage or the marker, and carries the last reason recorded |
| OpenAi.RunExact | crates/south-component-conformance/src/reference.rs:833-985 | in every run a finish is held if and only if some frame's is, and every unsuperseded finish has left exactly once or is the one held |
| OpenAi.WholeRunExact | crates/south-component-conformance/src/reference.rs:1022-1046 | after the end of input nothing is held, every finish settles, and there are as many finishes as unsuperseded finish-bearing frames |
| OpenAi.WholeRunReasons | crates/south-component-conformance/src/reference.rs:839-876 | the finishes carry, in order, the reasons of the unsuperseded frames |
| OpenAi.LoneMarkersExact | crates/south-component-conformance/src/reference.rs:858-876 | in every accepted stream, wherever its markers stand, the `Done` events are the finishes plus the markers that stand alone, read off the history of finishes, usage and markers; every `Done` closes a finish if and only if there is no such marker |
| OpenAi.RunDones | crates/south-component-conformance/src/reference.rs:839-876 | at every point of a run what is held and whether a `Done` went out are what that history says |
| OpenAi.BareMarker | crates/south-component-conformance/src/reference.rs:858-869 | a stream of one marker emits one `Done` and no finish |
| OpenAi.SecondMarker | crates/south-component-conformance/src/reference.rs:858-869 | a finish with its usage and then two markers: the first marker is swallowed, the second emits a `Done` of its own |
| OpenAi.DoneExact | crates/south-component-conformance/src/reference.rs:858-876 | with the marker at most once and last, a `Done` stands alone if and only if the marker comes and no frame bears a finish |
| OpenAi.OneFinishOneDone | crates/south-component-conformance/src/reference.rs:833-985 | one finish-bearing frame and at most one marker, placed last: exactly one `Finish`, with that frame's reason, and one `Done`, wherever usage stands |
| OpenAi.PendingFinish.constructor | crates/south-component-conformance/src/reference.rs:832-837 | a new bookkeeping holds nothing |
| OpenAi.PendingFinish.Record | crates/south-component-conformance/src/reference.rs:840-844 | recording holds the mapped reason and forgets an emitted `Done` |
| OpenAi.PendingFinish.TakeFinish | crates/south-component-conformance/src/reference.rs:846-856 | taking emits the held finish once |
| OpenAi.PendingFinish.FinishMarker | crates/south-component-conformance/src/reference.rs:858-869 | the marker settles what is held, or is swallowed after a `Done` |
| OpenAi.PendingFinish.FlushPendingFinish | crates/south-component-conformance/src/reference.rs:871-876 | the end of input settles only what is held |
| OpenAi.PendingFinish.ReadChoices | crates/south-component-conformance/src/reference.rs:924-970 | the loop over choices emits content and records finish reasons |
| OpenAi.PendingFinish.EventsOfFrame | crates/south-component-conformance/src/reference.rs:881-985 | the mutable handling of a payload is the step function, errors included |
| OpenAi.PendingFinish.ReadFrame | crates/south-component-conformance/src/reference.rs:1009-1019 | an error event, the marker or a payload, as the step function says |
| OpenAiContent.RunSends | crates/south-component-conformance/src/reference.rs:924-970 | the content and the reasoning of each choice, concatenated over an accepted stream, are what its frames bring |
| OpenAiContent.RunSays | crates/south-component-conformance/src/reference.rs:924-970 | the call deltas of an accepted stream are those of its choices, in order: position, id, name and arguments |
| OpenAiContent.WholeRunSends | crates/south-component-conformance/src/reference.rs:924-1046 | the same up to and including the end of input |
| OpenAiContent.ReasonSpells | crates/south-component-conformance/src/reference.rs:395-404 | a finish reason spells the wire word it came from, and is an unnamed one exactly for an unlisted word |
| OpenAiContent.CountsRead | crates/south-component-conformance/src/reference.rs:749-827 | written counts are read back, in the marked cache mode and outside it |
| OpenAiContent.UsageWritten | crates/south-component-conformance/src/reference.rs:749-827 | a written usage object is accepted if and only if its counts add up, and gives those buckets |
| OpenAiContent.HitsRead | crates/south-component-conformance/src/reference.rs:749-827 | the cached subset under its other spelling |
| OpenAiContent.RunTaken | crates/south-component-conformance/src/reference.rs:881-985 | a stream is accepted if and only if every frame is by itself: an error event, a marker, or a document without an error, with readable usage or none, and with choices or usage |
| OpenAiContent.RunErrors | crates/south-component-conformance/src/reference.rs:1009-1019 | the errors of an accepted stream are one for each error frame |
| Utf8.DecodeEncoded | crates/south-component-conformance/src/reference_anthropic_bedrock_invoke.rs:119-121 | decoding undoes encoding of every text, refusing nothing an encoder writes |
| Utf8.EncodeDecoded | crates/south-component-conformance/src/reference_anthropic_bedrock_invoke.rs:119-121 | encoding undoes decoding of every accepted byte string, so no text has a second spelling |
| Utf8.SplitAtAscii | crates/south-component-conformance/src/sse_split.rs:191-193 | a text may be cut at any ASCII byte and both sides are texts |

## Left out

- Request bodies beyond the conversation, URL choice, headers, dialect and parameter tables, and the
  mapping of HTTP statuses to error codes: finite decisions that would only add easy members.
- JSON text: `serde_json` parsing and printing are a `Json.Codec` parameter; a round trip of the
  documents used is required only where a result needs it (`Replay.RoundTripExact`,
  `GeminiTurns.AnswerReplays`, `InvokeEnvelope.WrappedStream`). Object key order is not modelled.
- Error message texts: errors are constructors, one per message or family of messages.
- Floating point: cue times are reals, so rounding of `f64` seconds is not captured.
- Prompt-cache markers of system texts and tool results in a Messages request.
- The Bedrock Converse parser, whose machine repeats the Messages one.
- Buffered OpenAI responses, speech formats other than word cues, and the rendering of subtitle
  files.
- Rendering, signing, the responder, JSON pointers and token payloads of a recipe: functions in
  `Recipe.World`; the responder may depend on every request so far. Field resolution, recipe
  selection, write-back and attributes are not modelled.
- Patch paths and files: reading, writing and splitting a file into lines, and renames; digits of a
  hunk header are the ASCII ones.
- The state of a parser object after a call that returned an error, except where a contract says it:
  callers end the stream there.
