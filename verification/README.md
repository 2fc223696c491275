# Sekisho: a verified model

Sekisho relays LLM calls from an enclave and signs, for each call, a receipt that a Sui contract later checks.
This project models that chain and proves what it promises, from the bytes a client is streamed to the event the
contract emits:

- **Attestation documents** — the cursor-driven CBOR reader (RFC 8949, sections 3.1 and 3.2) and the parser of the
  COSE_Sign1 wrapper (RFC 9052, section 4.2). The reader is a class with a moving position, proved against a
  specification function; that function is proved to accept exactly the valid encodings. `CborValues`, `CborEncoding`,
  `CborDecoding`, `CborSoundness`, `CborReader`, `Hex`, `Attestation`, `AttestationEncoder`; the same in bytes and names,
  item by item and field by field: `CborRules`, `AttestationFacts`.
- **Streams** — the two accumulators (buffer, drain, apply) and the SDK's parser of server-sent events (section 9.2.6 of
  the HTML standard, LF framing). Chunk independence, equality with the non-streaming parsers, and agreement between
  what the client reads and what the enclave applies. `Utf8`, `TextOps` (in `Text.dfy`), `Json` and `Canonical` (in
  `Json.dfy`), `Sse`, `Anthropic`, `AnthropicEquality`, `OpenAi`, `OpenAiEquality`,
  `SseClient`, `Framing`, `SameEvents`, `BlankLines`; and the other way round, every message cut and interleaved into
  events, and those into bytes: `Weaving`, `AnthropicStreams`, `OpenAiStreams`, `Printing`. What each wire field becomes, by
  its name, streamed and whole: `AnthropicFields`, `OpenAiFields`; each line and event of a stream: `SseFacts`; each encoded
  character: `Utf8Encoding`.
- **Receipts** — the BCS layout with a left inverse, the enclave's hand-written serializer, the hex form that is served
  and its way back to the signed bytes. `Bcs`, `Receipts` (in `Receipt.dfy`), `ReceiptLayout` (the signed message byte by
  byte), `SdkReceipt`, `ReceiptStore`.
- **The chain** — approving, revoking, registering, destroying and verifying, over whole runs. `Checkpoints` (in
  `Checkpoint.dfy`), `Registry`, `RegistryFacts`.
- **The gateway** — the policy engine, the request protocol as a step machine whose requests interleave freely, and the
  handlers as methods, each proved to do what a run of the step machine does. `Policy`, `PolicyFacts`, `Server`,
  `Handlers`, and what a receipt says of its request, field by field: `ReceiptFacts`.
- **All together** — enclaves, other key holders and the chain in one transition system: `verify` is exact, every event
  comes from one request of one enclave, and the event of a streamed call commits to the whole message. `EndToEnd`,
  `StreamToChain`, `WholePath`.

## How it is modelled

- Foreign code is a parameter: JSON parsing and printing, SHA-256, Walrus blob ids, the signer's key, the clock, the
  upstream. No hash is assumed injective. Signatures are ideal: the set of (key, message, signature) that exist. So are
  attestations of the gateway's builds: one exists only for an enclave that runs the build, and holds that enclave's key.
- Bytes are integers below 256, text is a sequence of characters, `u64` fields are bounded, `u256` values are naturals
  checked against 2^256 where the contract's types demand it. UTF-8 decoding with replacement is modelled exactly.
- A JavaScript `Map` is its list of entries in insertion order. Keys that are objects are compared by reference, so
  each one read is a new entry.
- The classes are those of the source (`CborReader`, both `StreamAccumulator`s, `TextDecoder` as used, the receipt
  buffer, the ring buffer, `Checkpoint`, the event log, `AppState`); their fields are updated in place and tied to a
  specification function by `Valid()` or by an abstract value.
- History fields of a request (`call`, `verdict`, `dispatches`, `answer`, `body`, `failureText`, `fed`, `sent`, `issued`) record what
  happened independently of the phase the handler is in, so that the theorems about receipts speak of the history.

## What the code does that its documentation does not say

- `sdk/src/client.ts:47` says events may be separated by CRLF pairs; only `"\n\n"` is searched for. The client yields
  every payload if and only if every blank line is bare, and what the Anthropic accumulator applies if and only if no
  other one precedes a bare one (`BlankLines.BareBlankLinesDecide`); the OpenAI accumulator reads them all.
- The client joins the data lines of an event, as the standard says; the accumulators read each line as a payload. So the
  readers agree if and only if no event has two data lines, the OpenAI one if, besides, none stands after the last blank
  line (`SameEvents.ReadersAgreeExactly`). The client stops at data that does not parse, the accumulators go on
  (`SameEvents.BadDataEndsClient`). The client strips a byte order mark, the accumulators keep it and lose the first
  line: the readers still agree if and only if that line is no data (`SameEvents.ByteOrderMarkHidesFirstLine`).
- `enclave/src/providers/openai.rs:116-119` says the four counters sum to the provider's total; they do exactly when the
  cached part does not exceed the prompt (`OpenAiEquality.UsageAddsUp`).
- Each chunk is decoded on its own, so a cut inside a character loses it. The exact condition is
  `Sse.AlignedText`, shown in the state by `Sse.UnalignedShows`; `Utf8.CutCharacterIsLost` is an instance.
- Deltas of blocks other than text and tool_use are dropped (`AnthropicEquality.OpaqueDeltasAreDropped` says exactly
  when that is harmless), a streamed tool_result block differs from an unstreamed one
  (`AnthropicEquality.ToolResultDiffers`), and empty OpenAI text gives no block when streamed
  (`OpenAiEquality.EmptyTextDiffers`).
- `parseBlobId` reads a decimal string of exactly 64 digits as hex, which gives another value whenever one of fifteen
  places holds a digit other than zero (`SdkReceipt.LongDecimalIsMisread`); a decimal string of any other length is read
  as decimal (`SdkReceipt.DecimalIsRead`).
- A receipt can be verified, and an event emitted, any number of times; no theorem here says otherwise.

## Model

| member | source | states |
|---|---|---|
| CborDecoding.DecodeComplete | scripts/lib/attestation.ts:82-196 | every valid encoding of a value (any head size, any mix of definite and indefinite framing, any nesting and tags) decodes to that value, leaving exactly the bytes after it |
| CborSoundness.DecodeSound | scripts/lib/attestation.ts:82-196 | whatever is decoded was a valid encoding of the returned value, exactly the bytes consumed |
| CborSoundness.DecodeExactly | scripts/lib/attestation.ts:82-196 | decoding returns a value and a rest if and only if the input is some valid encoding of that value followed by that rest |
| CborSoundness.DecodeFailsExactly | scripts/lib/attestation.ts:41-196 | the reader throws if and only if no valid encoding is a prefix of the input |
| CborSoundness.EncodingsArePrefixFree | scripts/lib/attestation.ts:82-196 | two encodings, one a prefix of the other, have the same length and stand for the same value |
| CborSoundness.BreakIsNoItem | scripts/lib/attestation.ts:54-57 | a break byte is never accepted as an item, nor as the value of a map entry |
| CborDecoding.ReadLengthOfHead | scripts/lib/attestation.ts:59-80 | each of the five head forms reads back as its number, whatever follows |
| CborDecoding.StreamComplete | scripts/lib/attestation.ts:101-109 | the members of an indefinite item are read up to its break |
| CborDecoding.ItemsComplete | scripts/lib/attestation.ts:144-146 | a counted list of encodings reads back as their values |
| CborReader.Uint16IsBigEndian | scripts/lib/attestation.ts:62-65 | the shifted two-byte form is the big-endian value |
| CborReader.Uint32IsBigEndian | scripts/lib/attestation.ts:66-69 | the shifted four-byte form, with 32-bit wrap-around undone by the unsigned shift, is the big-endian value |
| CborReader.Reader.Byte | scripts/lib/attestation.ts:41-44 | one byte is returned and the cursor moves by one, or the end is reported and nothing moves |
| CborReader.Reader.TakeBytes | scripts/lib/attestation.ts:46-51 | n bytes are returned and consumed, or the end is reported |
| CborReader.Reader.AtBreak | scripts/lib/attestation.ts:54-57 | looks at the next byte without moving |
| CborReader.Reader.ReadLength | scripts/lib/attestation.ts:59-80 | reads the length the specification reads, up to 2^53 - 1 |
| CborReader.Reader.Decode | scripts/lib/attestation.ts:82-196 | the cursor-driven decoder returns what the specification returns on the remaining input, and leaves exactly its rest |
| CborReader.Reader.ByteChunks | scripts/lib/attestation.ts:98-117 | chunks are collected up to the break and joined; a chunk of another type is an error |
| CborReader.Reader.TextChunks | scripts/lib/attestation.ts:122-133 | the same for text |
| CborReader.Reader.ArrayItems | scripts/lib/attestation.ts:136-147 | both array loops collect what the specification reads |
| CborReader.Reader.MapEntries | scripts/lib/attestation.ts:148-167 | both map loops build the map that setting the pairs in order builds |
| CborReader.DecodeCbor | scripts/lib/attestation.ts:199-201 | the first item of the input, trailing bytes ignored |
| Attestation.ParseAttestationDocument | scripts/lib/attestation.ts:219-265 | the parser, prefix stripping and hex included, is the specification on the decoded bytes |
| Attestation.KeepPcrs | scripts/lib/attestation.ts:241-244 | exactly the entries from numbers to byte strings are kept |
| Attestation.LookupIsLast | scripts/lib/attestation.ts:155 | a lookup finds the value of the last pair with that key |
| Attestation.PcrsRecovered | scripts/lib/attestation.ts:239-244 | the PCR map is recovered if and only if the encoded pairs from numbers to byte strings are exactly its pairs |
| Attestation.BytesRecovered | scripts/lib/attestation.ts:219-265 | a document carried in any entry order and framing, wrapped with or without a tag, is parsed to its fields |
| Attestation.AttestationRecovered | scripts/lib/attestation.ts:219-265 | the same from its hex form, with or without "0x" |
| Attestation.ParsesExactly | scripts/lib/attestation.ts:223-264 | an input parses to a document if and only if it begins with a COSE_Sign1 array whose payload begins with a map that yields the document |
| AttestationEncoder.WrittenIsParsed | scripts/lib/attestation.ts:219-265 | every document whose numbers and lengths are in range, written out as a payload map in a COSE_Sign1 array and hex-encoded, parses to itself |
| CborRules.IntegersAreRead | scripts/lib/attestation.ts:59-91 | on bytes: each length form after 0x00 reads as its number, after 0x20 as minus one minus it |
| CborRules.StringsAreRead | scripts/lib/attestation.ts:118-134 | on bytes: a length and that many bytes read as a byte string after 0x40, as text after 0x60 |
| CborRules.ByteChunksAreRead | scripts/lib/attestation.ts:98-117 | what reads as byte strings, between 0x5F and 0xFF, reads as one byte string of all their bytes in order |
| CborRules.TextChunksAreRead | scripts/lib/attestation.ts:122-133 | the same for text, between 0x7F and 0xFF |
| CborRules.ArrayIsRead | scripts/lib/attestation.ts:136-147 | items after their number (0x80) or between 0x9F and 0xFF read as the array of them |
| CborRules.MapIsRead | scripts/lib/attestation.ts:148-167 | keys and values in turn, after half their number (0xA0) or between 0xBF and 0xFF, read as the map that setting them in order builds |
| CborRules.MapSetIs | scripts/lib/attestation.ts:155 | setting a key that is there keeps its place and replaces its value; another key is put last |
| CborRules.KeysAre | scripts/lib/attestation.ts:155 | equal numbers, texts, booleans and nulls are one key; anything else is a key of its own |
| CborRules.TagIsRead | scripts/lib/attestation.ts:168-172 | a tag number after 0xC0 and an item read as that item, tagged |
| CborRules.SimplesAreRead | scripts/lib/attestation.ts:173-190 | 0xF4 is false, 0xF5 true, 0xF6 and 0xF7 null, and a float of two, four or eight bytes null |
| CborRules.InitialBytesRefused | scripts/lib/attestation.ts:79-191 | which initial bytes are refused as lengths and which as simple values |
| CborRules.EndsInHead | scripts/lib/attestation.ts:41-51 | input that ends at the front, in a length or in a float reports its end |
| CborRules.EndsInString | scripts/lib/attestation.ts:46-51 | so does input with fewer bytes than a string's length says |
| CborRules.NumberTooLarge | scripts/lib/attestation.ts:70-76 | any eight-byte number above 2^53 - 1 is refused, wherever a number stands |
| CborRules.OtherChunkRefused | scripts/lib/attestation.ts:103-128 | a chunk of another type than its string is refused |
| CborRules.ErrorsPass | scripts/lib/attestation.ts:136-171 | the error of an item is the error of the array, map or tag it is in, keys and values alike |
| CborRules.NumberExamples | scripts/lib/attestation.ts:87-171 | integers and a tag, examples of RFC 8949, appendix A |
| CborRules.ChunkExample | scripts/lib/attestation.ts:98-117 | an example of RFC 8949, appendix A |
| CborRules.ContainerExamples | scripts/lib/attestation.ts:136-167 | an array and a map, with a length and with a break |
| AttestationFacts.DocumentIsRead | scripts/lib/attestation.ts:223-264 | which map entry, under which name, each field of a parsed document comes from, and what it is when the entry has another type or is missing |
| AttestationFacts.RefusedWhen | scripts/lib/attestation.ts:223-240 | every reason for which an input is refused, in the order of the checks |
| AttestationFacts.HexStops | scripts/lib/attestation.ts:219-221 | hex is read up to the first pair that is not two digits, in either case |
| AttestationFacts.PrefixIsStripped | scripts/lib/attestation.ts:220 | "0x" is taken off once, and only where it is |
| Hex.DecodeEncode | scripts/lib/attestation.ts:214-221 | hex decoding undoes hex encoding, in both the lenient and the strict reader |
| Hex.EncodeInjective | enclave/src/receipt.rs:181 | different bytes have different hex |
| Utf8.LossyChunksIffAligned | enclave/src/providers/anthropic.rs:574-575 | decoding two chunks separately gives the decoding of both together if and only if the cut is not inside a sequence |
| Utf8.CutCharacterIsLost | enclave/src/providers/anthropic.rs:574-575 | a two-byte character cut in the middle becomes two replacements |
| Utf8Encoding.DecodeEncode | enclave/src/providers/anthropic.rs:574-575 | decoding undoes UTF-8 encoding (RFC 3629, section 3), for every text |
| Utf8Encoding.SubpartMeans | enclave/src/providers/anthropic.rs:574-575 | a whole sequence is the encoding of the character it is decoded to; any other subpart is decoded to the replacement character and encodes nothing |
| Utf8Encoding.EncodeDecode | enclave/src/providers/anthropic.rs:574-575 | bytes whose text has no replacement character are the encoding of that text |
| Utf8Encoding.EncodedExamples | enclave/src/providers/anthropic.rs:574-575 | examples of RFC 3629, section 7 |
| Utf8Encoding.ReplacedExamples | enclave/src/providers/anthropic.rs:574-575 | a truncated sequence, an overlong one and a surrogate, each maximal subpart replaced once |
| Sse.AlignedText | enclave/src/providers/anthropic.rs:574-575 | any number of chunks, decoded one by one, give the text of all their bytes if and only if no cut is inside a sequence |
| Sse.UnalignedShows | enclave/src/providers/openai.rs:489-495 | where no separator occurs, feeding chunks reaches the state of feeding them together if and only if they are character-aligned |
| TextOps.DrainAppend | enclave/src/providers/anthropic.rs:576-579 | draining text that arrives in two parts takes out the same pieces and leaves the same tail as draining it whole |
| Sse.FeedTwice | enclave/src/providers/anthropic.rs:574-580 | two feeds of text reach the state of one feed of both |
| Sse.ChunkIndependence | enclave/src/providers/anthropic.rs:574-595 | character-aligned chunks reach the same state, leftover buffer included, as their concatenation fed once |
| Sse.TailOnlyBuffered | enclave/src/providers/openai.rs:489-495 | text that no separator ends is buffered and applies nothing, so it cannot affect `finish` |
| Anthropic.StreamAccumulator.Feed | enclave/src/providers/anthropic.rs:574-580 | the drain loop leaves the buffer and applies the payloads the specification says |
| Anthropic.StreamAccumulator.HandleEventBlock | enclave/src/providers/anthropic.rs:582-595 | applies the parsable payload of each data line, in order |
| Anthropic.StreamAccumulator.OnEvent | enclave/src/providers/anthropic.rs:597-645 | the fields become what the event makes of them, by event type |
| Anthropic.StreamAccumulator.OnMessageStart | enclave/src/providers/anthropic.rs:599-621 | only the reported fields change |
| Anthropic.StreamAccumulator.OnBlockDelta | enclave/src/providers/anthropic.rs:628-634 | the block at the index takes the delta if it has been started |
| Anthropic.StreamAccumulator.Grow | enclave/src/providers/anthropic.rs:647-651 | pads with empty slots up to the length |
| Anthropic.StreamAccumulator.FinishStream | enclave/src/providers/anthropic.rs:658-678 | the response, metadata and id that `Finish` gives for everything applied, which `AnthropicFields.FinishIsRead` and `FinishedBlocks` read off the events |
| AnthropicFields.DecodesExactly | enclave/src/providers/anthropic.rs:301-302 | a response decodes if and only if it has a model and every other field it has is of its type |
| AnthropicFields.UsageIsRead | enclave/src/providers/anthropic.rs:125-132 | each counter of the canonical response is the wire counter of its name, or zero |
| AnthropicFields.WholeIsRead | enclave/src/providers/anthropic.rs:298-327 | model, stop reason, tier, geography and id of the result are the fields of those names, and each block is that of its item |
| AnthropicFields.BlockIsRead | enclave/src/providers/anthropic.rs:183-222 | what each type of content block becomes, field by field |
| AnthropicFields.ToolResultIsText | enclave/src/providers/anthropic.rs:154-172 | a tool result's content as text |
| AnthropicFields.MessageStartIsApplied | enclave/src/providers/anthropic.rs:599-621 | a message_start sets what it reports, each counter by its name, and nothing else |
| AnthropicFields.MessageDeltaIsApplied | enclave/src/providers/anthropic.rs:635-642 | a message_delta sets the stop reason and the counters it reports |
| AnthropicFields.BlockStartIsApplied | enclave/src/providers/anthropic.rs:622-627 | a started block stands at its index, by its type, and no other block changes |
| AnthropicFields.BlockDeltaIsApplied | enclave/src/providers/anthropic.rs:628-634 | a delta extends the started block at its index if it is of that block's kind, and changes nothing else |
| AnthropicFields.OtherEventIsSkipped | enclave/src/providers/anthropic.rs:643-644 | an event of another type changes nothing |
| AnthropicFields.FinishIsRead | enclave/src/providers/anthropic.rs:658-678 | each field and each of the four counters of the streamed response is the last report of its name |
| AnthropicFields.StartReports | enclave/src/providers/anthropic.rs:599-621 | what a message_start reports under each name |
| AnthropicFields.DeltaReports | enclave/src/providers/anthropic.rs:635-642 | what a message_delta reports under each name |
| AnthropicFields.FinishedBlocks | enclave/src/providers/anthropic.rs:659-664 | the streamed blocks are those of the indexes started, in order |
| AnthropicFields.StreamedBlockIsRead | enclave/src/providers/anthropic.rs:491-564 | a streamed block is its text and all fragments, a tool call with its parsed input, or the digest of its start |
| Json.LastReportIs | enclave/src/providers/anthropic.rs:101-117 | the last report is that of the event after which no event reports anything |
| AnthropicEquality.RunUsage | enclave/src/providers/anthropic.rs:101-117 | each usage counter is the last value any event reported for it |
| AnthropicEquality.RunFields | enclave/src/providers/anthropic.rs:597-645 | model, id, tier, geography and stop reason are the last ones reported |
| AnthropicEquality.BlocksAreIndependent | enclave/src/providers/anthropic.rs:622-634 | the block at an index depends only on the events for that index |
| AnthropicEquality.InterleavingDoesNotMatter | enclave/src/providers/anthropic.rs:597-678 | two streams with the same events per block index, and the same message-level events, finish alike, however they are interleaved |
| AnthropicEquality.BlockStreams | enclave/src/providers/anthropic.rs:491-564 | a text, tool_use or delta-free opaque block, in any fragments, becomes the block of the whole message |
| AnthropicEquality.OpaqueDeltasAreDropped | enclave/src/providers/anthropic.rs:539 | an opaque block, its deltas dropped, equals that of the whole message if and only if the whole block is no tool_result and has the digest of the start event's block |
| AnthropicEquality.ToolResultDiffers | enclave/src/providers/anthropic.rs:205-216 | a tool_result block, streamed, is not what it is unstreamed |
| AnthropicEquality.StreamEqualsWhole | enclave/src/providers/anthropic.rs:298-327 | for any events that stream a message, `finish` returns the response, metadata and id of `to_canonical_response` on the message |
| AnthropicStreams.WovenMessageIsDescribed | enclave/src/providers/anthropic.rs:597-634 | the hypothesis of the equality is met by every message that decodes: its blocks cut anywhere, the events of its blocks, its own and others that say nothing interleaved in any order |
| AnthropicStreams.WovenEqualsWhole | enclave/src/providers/anthropic.rs:658-678 | so `finish` on any such stream of a message returns what `to_canonical_response` returns on the message |
| AnthropicStreams.EveryMessageStreams | enclave/src/providers/anthropic.rs:597-634 | every message without tool results whose tool inputs can be spelled has such a stream |
| OpenAi.StreamAccumulator.Feed | enclave/src/providers/openai.rs:489-495 | the drain loop leaves the buffer and applies the payloads the specification says |
| OpenAi.StreamAccumulator.HandleLine | enclave/src/providers/openai.rs:497-512 | one data line's payload is applied if it parses; the end marker sets the flag and applies nothing |
| OpenAi.StreamAccumulator.OnTopLevel | enclave/src/providers/openai.rs:514-531 | the reported top-level fields change; usage is replaced whole when it parses |
| OpenAi.StreamAccumulator.OnChoice | enclave/src/providers/openai.rs:532-563 | the first choice's finish reason, text and tool-call fragments are taken in, with the early exits |
| OpenAi.StreamAccumulator.OnEntries | enclave/src/providers/openai.rs:548-562 | each fragment extends the call at its index, keyed in order |
| OpenAi.StreamAccumulator.FinishStream | enclave/src/providers/openai.rs:566-597 | the response, metadata and id that `Finish` gives for everything applied, which `OpenAiFields.FinishIsRead` and `FinishedBlocks` read off the chunks |
| OpenAiFields.DecodesExactly | enclave/src/providers/openai.rs:288-289 | a completion decodes if and only if it has a model and every other field it has is of its type |
| OpenAiFields.UsageIsRead | enclave/src/providers/openai.rs:120-132 | input is the prompt less its cached part, down to zero; cache reads are that part, cache creation zero, output the completion |
| OpenAiFields.WholeIsRead | enclave/src/providers/openai.rs:285-324 | model, finish reason of the first choice, tier, geography and id of the result are the fields of those names |
| OpenAiFields.ContentIsRead | enclave/src/providers/openai.rs:290-297 | the content's blocks come first, then one for each tool call, in order |
| OpenAiFields.ContentBlocksAre | enclave/src/providers/openai.rs:141-165 | what each type of content becomes |
| OpenAiFields.ResponseCallIsRead | enclave/src/providers/openai.rs:167-179 | a call's block, from the JSON of the call: parsed arguments when they parse and are not blank, the string when they do not, the empty object when they are blank |
| OpenAiFields.StreamedCallIsRead | enclave/src/providers/openai.rs:571-583 | the same three cases for a streamed call, its id the last one and its name and arguments all fragments joined |
| OpenAiFields.TopLevelIsApplied | enclave/src/providers/openai.rs:514-531 | a chunk sets the top-level fields it has, usage only when it decodes |
| OpenAiFields.ChoiceIsApplied | enclave/src/providers/openai.rs:532-547 | its first choice sets the finish reason and extends the text, and no other choice counts |
| OpenAiFields.NoChoiceIsApplied | enclave/src/providers/openai.rs:532-537 | a chunk without choices leaves finish reason, text and calls |
| OpenAiFields.EntryIsApplied | enclave/src/providers/openai.rs:548-562 | a tool-call entry extends the call at its index, 0 if it has none, and no other |
| OpenAiFields.FinishIsRead | enclave/src/providers/openai.rs:584-596 | each field of the streamed response is the last report of its name, the counters those of the last usage |
| OpenAiFields.FinishedBlocks | enclave/src/providers/openai.rs:566-583 | text, if there is any, then the calls in the order of their indexes |
| OpenAiEquality.RunFields | enclave/src/providers/openai.rs:514-546 | text is all fragments joined; the other fields, usage included, are the last ones reported |
| OpenAiEquality.CallsAreIndependent | enclave/src/providers/openai.rs:548-562 | the call at an index depends only on the fragments for it, and calls stay ordered by index |
| OpenAiEquality.CallsStream | enclave/src/providers/openai.rs:571-583 | calls streamed in any fragments and interleaving give the blocks of the whole message's calls |
| OpenAiEquality.StreamEqualsWhole | enclave/src/providers/openai.rs:285-324 | for any chunks that stream a message, `finish` returns the response, metadata and id of `to_canonical_response` on the message |
| OpenAiStreams.WovenCompletionIsDescribed | enclave/src/providers/openai.rs:514-563 | the hypothesis of the equality is met by every completion that decodes, with text that is not empty or none: its text and the arguments of its tool calls cut anywhere, the chunks interleaved in any order |
| OpenAiStreams.WovenEqualsWhole | enclave/src/providers/openai.rs:566-597 | so `finish` on any such stream of a completion returns what `to_canonical_response` returns on the completion |
| OpenAiStreams.EveryCompletionStreams | enclave/src/providers/openai.rs:514-563 | every completion with text that is not empty, or none, has such a stream |
| OpenAiEquality.StreamsTextExactly | enclave/src/providers/openai.rs:285-324 | for chunks that stream everything of a response but its text, and a response with string content or none, `finish` gives the response of `to_canonical_response` if and only if the streamed text is the content and not empty, or there is neither |
| OpenAiEquality.EmptyTextDiffers | enclave/src/providers/openai.rs:568-570 | string content streamed exactly gives the response of the whole message if and only if it is not empty |
| OpenAiEquality.UsageAddsUp | enclave/src/providers/openai.rs:120-132 | the canonical counters sum to the provider's total if and only if the cached part does not exceed the prompt |
| SseClient.TextDecoder.Decode | sdk/src/client.ts:41 | the stateful decoder returns the text the new bytes complete, and keeps an unfinished character back |
| SseClient.ReadBuffer | sdk/src/client.ts:48-62 | the inner loop yields the payloads of all framed events up to the first marker or bad payload, and keeps the tail |
| SseClient.ReadTextAppend | sdk/src/client.ts:39-65 | reading text that arrives in two parts yields what reading it whole yields |
| SseClient.ParseSse | sdk/src/client.ts:33-69 | under any chunking, cuts inside characters included, the client sees what the whole body holds |
| SseFacts.DataLineIsTaken | sdk/src/client.ts:52-56 | a data line gives its field, without one leading space and one carriage return |
| SseFacts.FieldsAreJoined | sdk/src/client.ts:59 | the fields of an event are joined by line feeds |
| SseFacts.EventIsRead | sdk/src/client.ts:48-61 | an event goes up to the next blank line; it is skipped without data, ends the reading at the marker or when it does not parse, and is yielded otherwise |
| SseFacts.PrintedEventIsSeen | sdk/src/client.ts:48-61 | one payload printed on a data line is one value for the client |
| SseFacts.TailIsNotRead | sdk/src/client.ts:48-64 | text that no blank line ends yields nothing |
| SseFacts.MarkIsDropped | sdk/src/client.ts:36-44 | one leading byte order mark is dropped |
| SseFacts.LinesAre | enclave/src/providers/anthropic.rs:582-583 | a line is what is before its line feed, less one carriage return |
| SseFacts.AnthropicAppliesEvent | enclave/src/providers/anthropic.rs:574-595 | one payload printed on a data line is applied once a blank line ends it |
| SseFacts.OpenAiAppliesLine | enclave/src/providers/openai.rs:489-512 | one payload printed on a data line is applied once a line feed ends it, the end marker never |
| TextOps.WhitespaceIs | enclave/src/providers/openai.rs:493 | the twenty-five characters that trimming removes |
| Framing.AnthropicReadsBlock | enclave/src/providers/anthropic.rs:582-595 | of a block of lines, every data line's payload is read, in order |
| Framing.OpenAiReadsBlock | enclave/src/providers/openai.rs:497-512 | the same, line by line |
| Framing.ClientReadsBlock | sdk/src/client.ts:52-56 | the client reads the data fields of the same lines |
| SameEvents.ReadersAgreeExactly | sdk/src/client.ts:45-62 | the client, under any chunking, yields what the Anthropic accumulator applies under any character-aligned chunking if and only if no block has two data lines, and what the OpenAI one applies if and only if, besides, no data line stands after the last blank line |
| SameEvents.ClientAndEnclaveAgree | sdk/src/client.ts:33-69 | with one data line a block, all three read the same payloads, and the client stops at the end marker if there is one |
| SameEvents.BadDataEndsClient | sdk/src/client.ts:59-61 | the client stops at the first block whose data does not parse; the accumulators skip it and go on |
| SameEvents.ByteOrderMarkHidesFirstLine | sdk/src/client.ts:36-41 | behind a byte order mark the client reads every payload and each accumulator loses the first line, so they agree if and only if that line is no data |
| BlankLines.BareBlankLinesDecide | sdk/src/client.ts:47-48 | events whose blank lines hold a carriage return or not: the OpenAI accumulator applies every payload, the Anthropic one those up to the last bare blank line; the client yields every payload if and only if every blank line is bare, and what the Anthropic one applies if and only if no other one precedes a bare one |
| BlankLines.CarriageReturnFramingIsNotRead | sdk/src/client.ts:47-48 | of any text whose line feeds all follow a carriage return the client yields nothing and the Anthropic accumulator applies nothing |
| BlankLines.CarriageReturnsDivideReaders | enclave/src/providers/openai.rs:489-495 | when no blank line is bare the OpenAI accumulator applies every payload, the Anthropic one and the client none |
| Bcs.Uleb128RoundTrip | enclave/src/receipt.rs:134-146 | a length prefix reads back, whatever follows |
| Bcs.FromLittleEndianRoundTrip | enclave/src/receipt.rs:129-131 | a fixed-width little-endian integer is written back as the bytes it was read from |
| Bcs.WriteRoundTrip | move/sources/receipt.move:213 | any list of in-range fields reads back, whatever follows |
| Receipts.MessageRoundTrip | move/sources/receipt.move:42-70 | all 17 receipt fields and the timestamp, with vectors and strings of any length, read back from the message bytes, whatever follows |
| Receipts.MessagesAreInjective | move/sources/receipt.move:42-70 | equal message bytes, or one a prefix of the other, come from equal receipts and timestamps |
| Receipts.OnChainInjective | enclave/src/receipt.rs:41-67 | different enclave payloads are different on-chain receipts |
| Receipts.SignedBytesInjective | enclave/src/receipt.rs:72-110 | the enclave signs equal bytes only for equal payloads and timestamps |
| Receipts.ByteBuffer.WriteUleb128 | enclave/src/receipt.rs:134-146 | the loop appends the length prefix, which `ReceiptLayout.PrefixBytes` and `PrefixIsShortest` fix byte by byte |
| ReceiptLayout.PrefixBytes | enclave/src/receipt.rs:134-146 | each byte of a prefix is seven bits of the length, with the top bit set in all but the last |
| ReceiptLayout.PrefixIsShortest | enclave/src/receipt.rs:134-146 | the last byte of a prefix is not zero when there is more than one, so none is superfluous |
| ReceiptLayout.OtherPrefixesAreLonger | enclave/src/receipt.rs:134-146 | any other prefix that reads as the length is longer |
| Receipts.ByteBuffer.WriteU256Le | enclave/src/receipt.rs:129-131 | the copied 32 bytes are the little-endian form of the integer the contract sees |
| Receipts.SerializeIntentMessage | enclave/src/receipt.rs:72-110 | the enclave's bytes are the contract's bytes for the on-chain receipt, which `ReceiptLayout.MessageLayout` writes out |
| ReceiptLayout.MessageLayout | enclave/src/receipt.rs:72-110 | the signed message byte by byte: every field at its place, in its form |
| ReceiptLayout.BlobBytes | enclave/src/receipt.rs:125-131 | a blob id is copied without a prefix |
| ReceiptLayout.IntegerBytes | enclave/src/receipt.rs:94-109 | byte i of an integer is its digit i in base 256 |
| ReceiptLayout.VectorNumbers | docs/receipt-vectors.json:25-60 | timestamp, largest counter and length prefixes of the published vectors |
| SdkReceipt.ParseBlobId | sdk/src/receipt.ts:222-241 | the backward loop over digit pairs computes the little-endian value; decimal and invalid strings as specified |
| SdkReceipt.BlobIdOfWireForm | sdk/src/receipt.ts:222-238 | the hex of any 32 bytes reads as their little-endian integer, also when all its digits are decimal |
| SdkReceipt.BlobIdOfPrefixed | sdk/src/receipt.ts:227-238 | with "0x", the hex of any number of bytes does |
| SdkReceipt.LongDecimalIsMisread | sdk/src/receipt.ts:231-239 | a 64-digit decimal string with a digit other than zero among its last twelve, or in its first, second or fourth place, is not read as its decimal value |
| SdkReceipt.ZerosAreRead | sdk/src/receipt.ts:231-238 | sixty-four zeros are read as zero |
| SdkReceipt.DecimalIsRead | sdk/src/receipt.ts:239 | a decimal string of any other length is |
| SdkReceipt.DecimalSnoc | sdk/src/receipt.ts:239 | the decimal value: one more digit is ten times as much and the digit |
| SdkReceipt.FromStored | scripts/e2e_demo.ts:122-140 | the client's receipt built from a served one, whose serialization is the bytes signed for the payload and timestamp it was stored for |
| SdkReceipt.StoredFieldsAre | enclave/src/receipt.rs:173-204 | every field of a stored receipt holds that field of the payload, in hex where it is bytes |
| SdkReceipt.ViewedFieldsAre | sdk/src/receipt.ts:97-119 | the client's view of it field by field, blob ids as the integers that are signed |
| SdkReceipt.NoBlobIdExactly | sdk/src/receipt.ts:222-241 | exactly which strings are no blob id |
| SdkReceipt.ClientRebuildsSignedBytes | sdk/src/receipt.ts:97-119 | from what is served for any payload and timestamp, the client rebuilds exactly the bytes that were signed, and the signature |
| Handlers.ServedReceiptIsSigned | sdk/src/receipt.ts:133-143 | the rebuilt bytes are ones the enclave made the served signature over |
| ReceiptStore.Ring.Insert | enclave/src/receipt.rs:226-235 | the store holds the last `capacity` of everything inserted, in order |
| ReceiptStore.Ring.Get | enclave/src/receipt.rs:240-251 | the backward search returns the newest retained receipt with the normalized id |
| ReceiptStore.SpellingsNormalize | enclave/src/receipt.rs:241 | a lookup string finds an id if and only if it spells it, with dashes anywhere and letters in either case |
| ReceiptStore.StoredIdsAreFaithful | enclave/src/receipt.rs:173-181 | stored ids are equal only for equal raw ids |
| ReceiptStore.LookupFindsNewestRetained | enclave/src/receipt.rs:226-251 | after any insertions, any spelling of an id finds the newest of the last `capacity` receipts with it, or nothing if none has it |
| Policy.SplitAgrees | enclave/src/policy.rs:77-92 | exact names and prefixes, split apart, match the same models as the patterns |
| Policy.CompileMatcher | enclave/src/policy.rs:77-92 | the loop builds a matcher that agrees with naive matching on every model, in the form its patterns call for |
| Policy.Compile | enclave/src/policy.rs:148-179 | loads exactly the documents whose enabled rules are all named, split into deny and allow rules in order |
| Policy.Evaluate | enclave/src/policy.rs:185-259 | the compiled rules give the verdict the document calls for: first deny match, else first allow rule met, else the complaints of all applicable allow rules in order |
| Policy.VerdictIsUnique | enclave/src/policy.rs:185-259 | the document determines the verdict, rule name and diagnostics included |
| Policy.AllowedIffPermitted | enclave/src/policy.rs:181-184 | a request is allowed if and only if no enabled deny rule matches and some enabled allow rule is met |
| Policy.OrderDoesNotMatter | enclave/src/policy.rs:181-184 | permuting the rules changes neither whether a request is allowed nor whether the document loads |
| Policy.InsertRule | enclave/src/policy.rs:181-259 | what one more deny or allow rule, at any position, changes, exactly |
| Policy.MoreIsNotEasier | enclave/src/policy.rs:221-248 | asking for more bytes or tokens, omission counting as unbounded, never turns a denial into an allowance |
| PolicyFacts.PatternsAre | enclave/src/policy.rs:94-102 | a trailing star stands for any ending; a name without one stands for itself |
| PolicyFacts.PermitsExactly | enclave/src/policy.rs:185-259 | a request is permitted if and only if it is for no enabled deny rule and, for some enabled allow rule, it is for the rule and within both caps |
| PolicyFacts.FirstRuleDecides | enclave/src/policy.rs:185-259 | the verdict names the first enabled deny rule for the request, or else the first enabled allow rule it is within |
| PolicyFacts.ComplaintIs | enclave/src/policy.rs:204-251 | what is held against a request that an allow rule does not allow: model first, then tokens, then bytes |
| PolicyFacts.VerdictRuleByRule | enclave/src/policy.rs:185-259 | the verdict, diagnostics included, computed rule by rule in document order: exactly how one more rule revises it |
| Checkpoints.PcrByIndex | move/sources/checkpoint.move:209-219 | the loop finds the first entry with the index, or aborts |
| Checkpoints.PcrOrderDoesNotMatter | move/sources/checkpoint.move:203-219 | with distinct indices, entry order does not change a lookup |
| Checkpoints.Checkpoint.ApprovePcrs | move/sources/checkpoint.move:106-117 | appends an unrevoked entry and returns its index |
| Checkpoints.Checkpoint.RevokePcrs | move/sources/checkpoint.move:123-127 | flags that entry and changes nothing else, or aborts out of bounds |
| RegistryFacts.ApprovalAppends | move/sources/checkpoint.move:106-117 | on chain: each measurement of a new entry at its name, not revoked, after the others |
| RegistryFacts.RevocationFlags | move/sources/checkpoint.move:123-127 | on chain: that entry is flagged and no other changes |
| Checkpoints.Checkpoint.FindMatchingEntry | move/sources/checkpoint.move:145-163 | the first entry with the triple, revoked or not |
| Checkpoints.Checkpoint.ValidateAndFindVersion | move/sources/checkpoint.move:183-201 | the version, or the first failing check's abort |
| Checkpoints.Checkpoint.Register | move/sources/checkpoint.move:234-270 | the gateway registered, or the first failing check's abort, by what `RegistryFacts` reads off the document |
| RegistryFacts.FirstEntriesAreAttested | move/sources/checkpoint.move:209-238 | the triple is that of the first entries with the indexes 0, 1 and 2 |
| RegistryFacts.RegisteredHasMeasured | move/sources/checkpoint.move:234-270 | whoever registers has shown PCR 0, 1 and 2 of an approved, unrevoked entry |
| RegistryFacts.RegistersWhenMeasured | move/sources/checkpoint.move:234-270 | with distinct indexes, registration succeeds if and only if the nonce names the sender, there is a key, and the first entry whose three measurements stand under PCR 0, 1 and 2 is there and unrevoked |
| RegistryFacts.RegistrationAborts | move/sources/checkpoint.move:183-270 | exactly when each check is the first to fail |
| RegistryFacts.RegisteredGatewayIs | move/sources/checkpoint.move:234-270 | a registered gateway has the document's key and time, the sender, and the index of an entry with the attested triple |
| Checkpoints.EventLog.Verify | move/sources/receipt.move:195-280 | on success one event with every field of the receipt is appended; on failure nothing is |
| Registry.RegistryInvariant | move/sources/checkpoint.move:183-270 | in every reachable state each gateway's version is the least index of the triple its document attested, its operator is the one the nonce names, its key and time are the document's |
| Registry.EqualTriplesShareVersion | move/sources/checkpoint.move:145-163 | gateways that attested equal triples share one version |
| Registry.VersionsInBounds | move/sources/receipt.move:204 | the revocation check of a registered gateway never runs out of bounds |
| Registry.RunExtends | move/sources/checkpoint.move:106-127 | over any run entries keep index and content, revocation stays, and only its own revocation flags an entry |
| Registry.RevocationIsPermanent | move/sources/checkpoint.move:119-127 | after a version is revoked and any transactions have followed, no gateway at it is verified and no triple first listed at it is registered |
| Registry.ApprovingAgainDoesNotHelp | move/sources/checkpoint.move:145-201 | approving a revoked triple again adds an entry that no registration reaches |
| Registry.OnlyOperatorDestroys | move/sources/checkpoint.move:276-280 | a gateway disappears only by its operator's own transaction |
| RegistryFacts.DestructionRemoves | move/sources/checkpoint.move:276-280 | exactly the operator destroys, and no other gateway changes |
| Registry.RegistersExactly | move/sources/checkpoint.move:234-270 | registration succeeds if and only if the nonce names the sender, there is a key, and the triple's first entry exists unrevoked |
| Registry.VerifiesExactly | move/sources/receipt.move:204-212 | verification of a gateway succeeds if and only if its version is unrevoked and its key signed the message |
| RegistryFacts.VerificationEmits | move/sources/receipt.move:195-280 | the abort of a failing check, and the one event of a success, field by field |
| Server.PayloadTrue | enclave/src/server.rs:341-521 | whatever a handler is about to sign is true of its request's history in every field (`ReceiptFacts` states the values): identity, upstream request, connection, outcome, request id, and the response or error record it commits to |
| ReceiptFacts.AnthropicBodyReceiptIs | enclave/src/server.rs:438-521 | the receipt of a 2xx Anthropic body: it commits to the decoded response, with outcome 1 if and only if the stop reason is "refusal", or is an upstream error when the body does not decode |
| ReceiptFacts.OpenAiBodyReceiptIs | enclave/src/server.rs:438-521 | the same on the OpenAI surface, where the reason is "content_filter" |
| ReceiptFacts.AnthropicStreamReceiptIs | enclave/src/server.rs:1071-1104 | the receipt of a streamed Anthropic call: it commits to what the chunks sent assemble to, with outcome 2 if the stream broke, else 1 if and only if the stop reason is "refusal" |
| ReceiptFacts.OpenAiStreamReceiptIs | enclave/src/server.rs:780-820 | the same on the OpenAI surface |
| ReceiptFacts.EventsAre | enclave/src/server.rs:762-772 | the payloads of a stream are those of its chunks' text, framed as its surface frames them |
| ReceiptFacts.ErrorReceiptIs | enclave/src/server.rs:382-436 | every field of a receipt without a 2xx answer |
| ReceiptFacts.IdentityIs | enclave/src/server.rs:341-370 | provider 0 is api.anthropic.com and 1 api.openai.com, with the call's id and the enclave's configuration |
| ReceiptFacts.ConnectionIs | enclave/src/server.rs:274-310 | the connection and the upstream request of a receipt, zeros where there was none |
| ReceiptFacts.StatusIs | enclave/src/server.rs:382-521 | the status of each reply |
| ReceiptFacts.StepRecords | enclave/src/server.rs:557-1118 | each step adds what happened to the history, and forgets nothing |
| Server.StepKeepsOk | enclave/src/server.rs:557-1118 | every step of a request keeps the request invariant |
| Server.GatewayRuns | enclave/src/server.rs:557-1118 | under any interleaving: dispatch only with the policy's permission, at most one receipt per request and true of it, chunks sent are chunks fed, and the log holds exactly the issued receipts |
| Handlers.ReachedOk | enclave/src/server.rs:557-1118 | the request invariant holds after any run of one request |
| Handlers.RelayAnthropic | enclave/src/server.rs:1052-1068 | the stream loop relays the chunks up to a transport error or the client's leaving, and the accumulator has been fed exactly those |
| Handlers.RelayOpenAi | enclave/src/server.rs:762-778 | the same on the other surface |
| Handlers.AppState.SignAndStore | enclave/src/server.rs:341-370 | on a signature one receipt, with the signature of its message bytes, enters the store; otherwise none |
| Handlers.AppState.FinishErrorReceipt | enclave/src/server.rs:382-436 | the error receipt is stored and named in the reply, or the reply is a signing failure |
| Handlers.AppState.FinishNonStreamingOk | enclave/src/server.rs:438-521 | the receipt of the decoded body, or an upstream-error receipt when it does not decode: the request it leaves is given in full, so `ReceiptFacts` applies to it |
| Handlers.AppState.StreamResponse | enclave/src/server.rs:760-834 | relays, assembles and stores the receipt, or stores none if the client leaves, and the header names it beforehand: the request it leaves has exactly the chunks relayed, so `ReceiptFacts` applies to it |
| Handlers.AppState.OnAnswer | enclave/src/server.rs:629-705 | every upstream outcome leads to the receipt the step machine issues |
| Handlers.AppState.Dispatched | enclave/src/server.rs:629-705 | the same, or no reply and no receipt if the client goes away before the answer |
| Handlers.AppState.Screening | enclave/src/server.rs:590-595 | the policy's decision, and the phase it leaves the request in |
| Handlers.AppState.Handle | enclave/src/server.rs:557-705 | the handler does what a run of the step machine does: dispatch exactly when permitted and configured, the store gains exactly the run's receipts, the client is sent exactly its chunks, and the reply's status and receipt id say what happened; there is none for a client that goes away before the answer |
| EndToEnd.HistoryOk | move/sources/receipt.move:195-280 | every reachable world keeps the registry invariant, the request invariant of every enclave, and that an enclave's key has signed exactly its receipts |
| EndToEnd.SignatureNamesReceipt | enclave/src/receipt.rs:72-110 | a signature over a message names the receipt, timestamp and signature it was issued with, and no other |
| EndToEnd.SignedIffIssued | enclave/src/server.rs:365-369 | an enclave's signature over a message exists if and only if the enclave issued that receipt |
| EndToEnd.VerifyIsExact | move/sources/receipt.move:195-280 | on a gateway with an enclave's key, `verify` succeeds if and only if the version is unrevoked and that enclave issued exactly this receipt, timestamp and signature |
| EndToEnd.EventsComeFromRequests | move/sources/receipt.move:223-248 | every event names its gateway's operator and version; for a gateway with an enclave's key it shows the receipt of one request of that enclave, true of that request, and determines the signed payload |
| EndToEnd.EventsWereUnrevoked | move/sources/receipt.move:204-248 | every event was emitted at one step of the history, by a `verify` of its gateway, with its version unrevoked at that step |
| EndToEnd.GatewayOfBuildIsEnclave | move/sources/checkpoint.move:234-270 | a gateway whose approved version is that of a gateway build holds the key of an enclave that runs the build |
| EndToEnd.VerifyOfBuildIsExact | move/sources/receipt.move:195-280 | so, with no key trusted beforehand, `verify` on such a gateway succeeds if and only if the version is unrevoked and the enclave behind it issued exactly this receipt, timestamp and signature |
| EndToEnd.EventsOfBuildsComeFromRequests | move/sources/receipt.move:223-248 | every event at the version of a gateway build, whoever registered its gateway, shows the receipt of one request of an enclave of that build, true of that request, and determines the signed payload |
| StreamToChain.AppliedIsSeen | enclave/src/server.rs:765-772 | the accumulator has applied exactly the payloads the client sees if and only if the frames have one data line a block and, on the OpenAI surface, none after the last blank line |
| StreamToChain.AnthropicEventCommitsToMessage | enclave/src/server.rs:1052-1104 | the event of a streamed Anthropic call commits to the canonical response of the whole message the client received |
| StreamToChain.OpenAiEventCommitsToMessage | enclave/src/server.rs:762-820 | the same for an OpenAI call |
| Printing.PrintedAreSeen | sdk/src/client.ts:33-69 | events printed as texts the parser reads back, one data line a block, are what the client sees, and are read alike by the enclave |
| WholePath.CallReachesChain | move/sources/receipt.move:195-280 | any permitted streaming call, with any chunks, can run through an enclave, be registered and verified: a reachable world has exactly the event that shows it |
| WholePath.AnthropicMessageReachesChain | enclave/src/server.rs:988-1118 | for any foreign code, any message that decodes, cut and interleaved in any way, printed as texts the parser reads back and streamed in any chunks (cut between characters on the enclave's side), there is a reachable world whose only event commits to the message |
| WholePath.AnthropicPathExists | enclave/src/server.rs:988-1118 | and all that exists, parser and bytes included, for every message without tool results whose tool inputs are spelled as JSON objects |
| WholePath.OpenAiCompletionReachesChain | enclave/src/server.rs:707-834 | the same for any completion that decodes, with text that is not empty or none |
| WholePath.OpenAiPathExists | enclave/src/server.rs:707-834 | and all that exists for every such completion |

## Left out

- HTTP, TLS, routing, the body limit and the concurrency semaphore: library plumbing. An upstream is a value (no response, a whole response, or a stream of chunks ending normally or in an error); a refused request is one step.
- SHA-256, Walrus blob ids, Ed25519 and the Nitro certificate chain: foreign code. Signatures are an ideal set, and so are attestations: measurements of a gateway build are attested only for an enclave that runs it, with its own key. Hashes are functions about which nothing is assumed.
- JSON text: parsing and printing are functions. The enclave and the client share one parser, so differences between serde_json and `JSON.parse` (numbers above 2^53, duplicate keys, lone surrogates) are not captured.
- serde's acceptance of a struct written as a JSON array, and its error messages: a response that is not an object fails to decode here.
- The text of denial reasons and error messages: denials carry structured diagnostics, and their rendering is a function.
- Failure of `blob_id_of` and `sha256_of`: hashing and blob ids are total here; the step machine allows a request to end unsigned at that point.
- Memory limits and the overflow of a block index plus one: indexes are natural numbers. The depth of recursion and the maximum array length of JavaScript are not bounded either.
- CBOR integers above 2^53 - 1 are an error, as in the code; floats and `undefined` read as null, as in the code. String forms of unexpected values (`String(x)`) are a function.
- Possession of `CheckpointCap`: enforced by the Move type system, so any approval or revocation in a run is an authorized one. A transaction here is one call; the maximum vector length of Move is not modelled.
- `destroy_gateway` and object ids exist only as steps of the registry, with ids counted up; Sui's id generation is not part of this model.
- Request parsing and canonicalization, authentication and boot configuration: the step machine starts from an authenticated, parsed request with its resolved nonce.
- `canonicalJson`, `hashJson` and `verifyReceipt`'s call of Ed25519: hashing helpers and foreign code; the bytes `verifyReceipt` checks are covered.
- `scripts/register_enclave.ts`, `scripts/verify_deployment.ts`, `app/` and the build scripts: command-line, user-interface and build glue.
- Handlers.AppState.Handle: one request from start to end; interleaving with other requests is proved of the step machine it refines, where the store's lock makes each insertion one step.
- SdkReceipt.LongDecimalIsMisread: one direction. Among 64-digit strings with zeros in all fifteen places, all zeros is shown to be read as its decimal value; whether another one is, is open.
- SameEvents.ReadersAgreeExactly: payloads are parsable; white space around a payload is allowed where the JSON parser makes the same of the client's untrimmed data, and around the end marker where the client's exact comparison still finds it. Lines that are data to one reader only (white space before `data:`) and data lines without a payload are not covered, nor are runs of blank lines.
- Server.GatewayRuns: says nothing of the concurrency permit, which the handler releases before a streamed body ends.
- Anthropic.StreamAccumulator.HandleDrained, OnMessageStart and the other small methods split one function of the source each into parts, so that each part is proved against its own specification.
