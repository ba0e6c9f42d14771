# AI-streaming-Backend, modelled in Dafny

This project models the core of a WebSocket back end for an AI avatar. A
client sends a `text-input` message. The server streams the language model's
answer as text deltas and feeds them to a per-connection `ChunkBuffer`. The
buffer cuts off speakable segments. Each segment is echoed as `full-text`.
It is then cleaned of `<expression>` / `[motion]` control tags and, when it
has visible text, synthesised to speech and sent as `audio`. A turn ends
with `complete`, or with one `error` frame when something throws.

Around that pipeline the model also covers:
- the comment `MessageQueue`;
- the speech-stream helpers (`ensureBuffer`, header search, base64);
- the WAV encoder of the transcription route and its `searchError`;
- the Live2D model-settings loader;
- the prompt template filler;
- the character request validators.

Modules, one per source file, plus shared helpers:

| file | module | source |
|---|---|---|
| wrappers.dfy | `Wrappers` | `Option`, and `Result` for operations that throw |
| text.dfy | `Text` | JavaScript whitespace, `trim`, `\s+` collapsing, `indexOf`, string `replace` |
| json.dfy | `Json` | parsed JSON values, JavaScript truthiness, template-literal text |
| wsutils.dfy | `WsUtils` | src/ws/wsUtils.ts |
| chunkbuffer.dfy | `Chunking` | src/tools/chunkbuffer.ts |
| cleantext.dfy | `CleanText` | src/tools/cleantext.ts |
| events.dfy | `Events` | src/ws/handler/Events.ts |
| messagequeue.dfy | `MessageQueues` | src/tools/messageQueue.ts |
| speechtts.dfy | `SpeechTts` | src/ws/handler/speechTTS.ts |
| transcript.dfy | `Transcript` | src/routes/transcript.ts |
| modelloader.dfy | `ModelLoader` | src/tools/model-loader.ts |
| prompts.dfy | `Prompts` | src/prompts/promptGenerator.ts |
| characters.dfy | `Characters` | src/types/characters.ts |

How the model is built:
- **State kept in place.** The chunk buffer, the buffer registry, the socket, the chat memory and the message queue are classes. Their methods carry `modifies` clauses.
- **Loops.** The scans and loops of the source are methods with loops. Each is proved equal to a specification function.
- **Properties.** The lemmas prove properties of those specification functions.
- **A turn.** A turn is specified by `Events.TurnFrames`, the list of frames it offers to the socket. The socket keeps them only while it is open.
- **Parameters.** Everything the core only calls out to becomes a parameter of the model:
  - the language model's stream;
  - `markAsRead`;
  - the expression and motion vocabulary, one reading per segment (`Env.vocabs`);
  - the outcome of speech synthesis, one call per segment (`Env.speech`);
  - `JSON.parse`;
  - file reads;
  - identifiers and clocks.

Where the code and its documentation disagree, the model follows the code:
- **Outgoing frames.** A frame is `{event, payload, text: payload, inReplyTo}`, and the payload is not flattened into it. `inReplyTo` is present only when a request id is passed. Only the per-segment `full-text` frames and the turn's `error` frame carry one.
- **`audio` payloads.** These carry the raw segment and the removed tags, not the cleaned text.
- **`parseClientMessage`.** Its shape check returns the parsed value on both branches, so any value that parses is accepted.
- **`fetch-backgrounds`.** It calls `getImageFiles()` without a directory. The read fails inside that helper, so the list sent is always empty.
- **Missing exports.** `Events.ts:7` imports `TTS_Config` from `config.ts`, and `Events.ts:9` imports `markAsRead` from `messageQueue.ts`. Neither module exports that name.
  - The build is an ES module (`dist/index.js:1-4`). There, importing a name a module does not export is a link-time error, so `Events.ts` as written would not load at all.
  - Were it loaded with the binding `undefined`, reading `TTS_Config.voice` at `Events.ts:92` would throw a `TypeError` before `textToSpeech` is called. The `catch (ttsError)` at `Events.ts:99` swallows it, so no segment would ever get a spoken 'audio' frame.
  - The model keeps `Env.speech` and `Env.markAsRead` general. They stand for a build in which both exports exist: synthesis may give audio or throw for each segment, and `markAsRead` either returns or throws with a message. The build as written is the case where `Env.speech` is empty.

## Model

| member | source | states |
|---|---|---|
| `Text.TrimFacts` | src/tools/cleantext.ts:35-37 | `trim` returns the infix between leading and trailing whitespace: it starts and ends with a visible character, is empty exactly for blank input and keeps every visible character |
| `Text.NormalizeSpaces` | src/tools/cleantext.ts:64 | `replace(/\s+/g, ' ').trim()` leaves only single plain spaces, none at either end, the same visible characters, and is empty exactly for blank input |
| `Text.CollapseSpaces` | src/tools/cleantext.ts:64 | every whitespace run becomes one space; visible characters are kept in order |
| `Text.IndexOf` | src/ws/handler/speechTTS.ts:49 | `indexOf` finds the first occurrence of a pattern, or reports that none exists at any index |
| `Json.Display` | src/ws/handler/Events.ts:28 | a template literal shows `undefined` for a missing value, a string as itself and an object as `[object Object]` |
| `Json.NatToStringRoundTrip` | src/ws/handler/Events.ts:28 | the decimal text of a number reads back as that number |
| `WsUtils.ParseClientMessage` | src/ws/wsUtils.ts:13-27 | the result is exactly what parsing gives: `null` for a frame that does not parse, otherwise the parsed value whatever its shape |
| `WsUtils.EnvelopeFields` | src/ws/wsUtils.ts:43 | a sent message has keys event, payload, text (and inReplyTo only when given); text equals payload |
| `WsUtils.SendMessage` | src/ws/wsUtils.ts:36-45 | a socket that is not open is sent nothing; an open socket gets exactly one more envelope at the end; the open state does not change |
| `Chunking.EndsInOpenTag` | src/tools/chunkbuffer.ts:8 | some `<` or `[` has no closer of its kind after it |
| `Chunking.TagsFrom` | src/tools/chunkbuffer.ts:83 | the matches of the tag pattern from a position: each a complete tag starting there or later, in order and without overlap |
| `Chunking.Tags` | src/tools/chunkbuffer.ts:83 | every match of the tag pattern in the buffer |
| `Chunking.LastSafeBreak` | src/tools/chunkbuffer.ts:131-135 | the last index below the bound that holds a safe-break character, -1 when none |
| `Chunking.LastGoodBreak` | src/tools/chunkbuffer.ts:91-100 | the last index below the bound, and at least 20, that is a safe break at least 5 characters from every tag boundary; -1 when none |
| `Chunking.BreakPoint` | src/tools/chunkbuffer.ts:77-101 | -1 under 20 characters; the basic break without tags; otherwise one past the last good break, or -1 |
| `Chunking.Feed` | src/tools/chunkbuffer.ts:18-42 | `addChunk` delta by delta: one cut-off prefix per delta and the buffer left at the end |
| `Chunking.SplitPoint` | src/tools/chunkbuffer.ts:18-42 | no cut when the buffer ends in an open tag or is under 20 characters; a cut always falls right after a safe-break character |
| `Chunking.Emitted` | src/tools/chunkbuffer.ts:37-39 | a cut-off prefix is returned unless it is blank; at most one segment, never blank |
| `Chunking.SplitWithoutTags` | src/tools/chunkbuffer.ts:126-138 | without complete tags the cut lands right after the last safe-break character; there is none after it |
| `Chunking.SplitWithTags` | src/tools/chunkbuffer.ts:91-121 | with complete tags the cut follows the largest index at least 20 that is a safe break at least 5 characters from every tag start and end |
| `Chunking.SplitCanCutInsideTag` | src/tools/chunkbuffer.ts:106-121 | a complete tag containing a space can be cut in the middle, leaving a segment that ends in an open tag |
| `Chunking.CutInsideTag` | src/tools/chunkbuffer.ts:91-121 | for twenty letters then `<abcd efghi>`, the cut falls at 26, inside the tag, and the emitted segment ends in an open tag |
| `Chunking.LineOfOneTag` | src/tools/chunkbuffer.ts:83 | twenty letters then `<abcd efghi>` hold exactly one tag, spanning 20 to 32 |
| `Chunking.FeedReconstructs` | src/tools/chunkbuffer.ts:18-42 | over any deltas, the cut-off prefixes followed by what is left equal the initial buffer followed by all deltas |
| `Chunking.SegmentsKeepText` | src/tools/chunkbuffer.ts:37-39 | the returned segments are never blank and keep every visible character of the cut-off prefixes in order |
| `Chunking.StreamReconstructs` | src/tools/chunkbuffer.ts:18-57 | the segments of a whole stream plus the flushed rest hold every visible character of the deltas in order |
| `Chunking.OpenTagAcrossTwoDeltas` | src/tools/chunkbuffer.ts:19-24 | a tag split across two deltas is not cut while open |
| `Chunking.ChunkBuffer.constructor` | src/tools/chunkbuffer.ts:3-4 | a new buffer is empty |
| `Chunking.ChunkBuffer.AddChunk` | src/tools/chunkbuffer.ts:18-42 | the new buffer is old buffer plus chunk from the cut on; the returned segments are what `Emitted` allows for the cut-off prefix |
| `Chunking.ChunkBuffer.Flush` | src/tools/chunkbuffer.ts:48-57 | returns the buffer iff it has visible content, else nothing; the buffer is empty afterwards |
| `Chunking.ChunkBuffer.Clear` | src/tools/chunkbuffer.ts:62-64 | the buffer becomes empty |
| `Chunking.ChunkBuffer.GetBufferContent` | src/tools/chunkbuffer.ts:69-71 | returns the buffer unchanged |
| `Chunking.ChunkBuffer.HasIncompleteExpression` | src/tools/chunkbuffer.ts:143-145 | true exactly when some `<` or `[` has no matching closer after it |
| `Chunking.ChunkBuffer.FindSafeBreakPointWithExpressions` | src/tools/chunkbuffer.ts:77-101 | the backward scan returns the break point the specification defines (-1 when none) |
| `Chunking.ChunkBuffer.IsGoodBreakPoint` | src/tools/chunkbuffer.ts:106-121 | true exactly when the index is at least 5 from every tag start and end |
| `Chunking.ChunkBuffer.FindBasicSafeBreakPoint` | src/tools/chunkbuffer.ts:126-138 | the index after the last safe-break character, -1 when none or the buffer is under 20 characters |
| `Chunking.BufferRegistry.GetOrCreateBuffer` | src/tools/chunkbuffer.ts:156-161 | the same buffer for a known connection; otherwise a fresh empty one is registered; no other entry changes |
| `Chunking.BufferRegistry.DeleteBufferForConnection` | src/tools/chunkbuffer.ts:163-165 | removes exactly that connection's entry |
| `CleanText.ScanFrom` | src/tools/cleantext.ts:30-61 | the replace pass from a position: the kept text and the removed values; ScanDeletesRemoved and ScanRemovesInOrder state what they are |
| `CleanText.TagMatchAt` | src/tools/cleantext.ts:16 | a tag is an opener, then no bracket of the same kind, then the matching closer |
| `CleanText.Classify` | src/tools/cleantext.ts:41-45 | a name is an expression if it is an expression key, else a motion if it is a motion key; expressions take priority |
| `CleanText.StepAt` | src/tools/cleantext.ts:30-60 | at each position a recognised tag is removed with its raw text, offset, trimmed name and kind; anything else is kept |
| `CleanText.ScanAtUnknown` | src/tools/cleantext.ts:56-59 | an unrecognised tag is kept verbatim and produces no removed value |
| `CleanText.ScanRemovesInOrder` | src/tools/cleantext.ts:30-60 | removed values are recognised tags of the input, left to right, without overlap |
| `CleanText.RemovedInOrderSorted` | src/tools/cleantext.ts:49-54 | removed values come in strictly increasing position |
| `CleanText.RemovedNamesTrimmed` | src/tools/cleantext.ts:34-38 | each removed value's clean value is its inner text trimmed |
| `CleanText.ScanDeletesRemoved` | src/tools/cleantext.ts:48-60 | the kept text is the input with exactly the removed tags cut out |
| `CleanText.Clean` | src/tools/cleantext.ts:11-72 | an open tag at the end gives the text unchanged with nothing removed; otherwise the text comes back single-spaced and trimmed |
| `CleanText.CleanRemovals` | src/tools/cleantext.ts:30-61 | every removed value is a recognised tag of the input, and the removed values come in order of position |
| `CleanText.CleanedTextIsInputWithoutRemovedTags` | src/tools/cleantext.ts:30-64 | the cleaned text is, up to whitespace, the input minus the removed tags |
| `CleanText.CleanWithoutVocabulary` | src/tools/cleantext.ts:41-45 | with no vocabulary nothing is removed and only whitespace is normalised |
| `CleanText.ReplaceAt` | src/tools/cleantext.ts:30-60 | one match and its callback: a recognised tag is pushed with its text, offset, trimmed name and kind and replaced by nothing; an unknown tag or an unmatched character is kept |
| `CleanText.ReplaceTags` | src/tools/cleantext.ts:30-61 | the replace loop keeps and removes exactly what the specification scan does |
| `CleanText.CleanTextAndGetRemovedValues` | src/tools/cleantext.ts:11-72 | returns what `Clean` specifies |
| `CleanText.HasCompleteExpressions` | src/tools/cleantext.ts:75-78 | true exactly when every `<` and `[` has its closer somewhere after it |
| `CleanText.GetPartialExpression` | src/tools/cleantext.ts:81-84 | the suffix from the first opener never closed, or none exactly when every opener is closed |
| `CleanText.IsExpressionOnly` | src/tools/cleantext.ts:87-91 | true exactly when there is a complete tag and every visible character lies inside a tag |
| `Events.EventFrames` | src/ws/handler/Events.ts:12-30 | the frames for one raw message: the invalid-format error, a text-input turn, the background list, or the unknown-event error |
| `Events.TurnFrames` | src/ws/handler/Events.ts:35-79 | the frames a text-input turn offers: none without text or stream; the error frame when the stream cannot start; otherwise thinking, each chunk's segment frames, then the error frame or the flushed frames and complete; the k-th segment is cleaned and synthesised with the k-th readings |
| `Events.ErrorText` | src/ws/handler/Events.ts:76 | the error's message, or the internal-error text for an empty one |
| `Events.AudioFrames` | src/ws/handler/Events.ts:85-109 | at most one audio frame, and none for a segment of at most two characters or when the vocabulary read for this segment throws |
| `Events.ShortSegmentOnlyEchoed` | src/ws/handler/Events.ts:83-85 | a segment of at most two characters produces only its full-text frame |
| `Events.SegmentAudioRules` | src/ws/handler/Events.ts:88-109 | cleaned with the vocabulary read for this segment, visible cleaned text gets an audio frame iff this segment's synthesis succeeds (with audio, raw text and removed tags); otherwise a null-audio frame iff tags were removed |
| `Events.CleanedAudioRules` | src/ws/handler/Events.ts:90-109 | after cleaning, at most one audio frame: for visible text exactly when synthesis succeeds, carrying the audio, the segment and the removed values; for blank text exactly when something was removed, with a null audio |
| `Events.AudioFramesEvent` | src/ws/handler/Events.ts:93-108 | an audio frame has event 'audio' and no inReplyTo |
| `Events.SegmentsFramesEvents` | src/ws/handler/Events.ts:82-109 | segment handling sends only full-text and audio frames, one or two per segment |
| `Events.MemoryAdded` | src/ws/handler/Events.ts:66-67 | only a completed turn is recorded: the user's text, then the concatenated chunks |
| `Events.ConcatNonEmpty` | src/ws/handler/Events.ts:47-50 | skipping empty chunks does not change the accumulated answer |
| `Events.NoTextOrNoStreamSendsNothing` | src/ws/handler/Events.ts:35-40 | missing or empty text, or no stream: no frames, buffer and memory untouched |
| `Events.CompletedTurnFrames` | src/ws/handler/Events.ts:44-69 | a completed turn sends thinking, each segment's frames (from addChunk, then from flush), then complete |
| `Events.CompletedTurnOrder` | src/ws/handler/Events.ts:44-69 | from an empty buffer the segments are non-blank and hold every visible character of the chunks in order |
| `Events.CompletedTurnEndsOnce` | src/ws/handler/Events.ts:44-69 | a completed turn begins with full-text, ends with the only complete frame and sends no error |
| `Events.ThrownTurnEndsInError` | src/ws/handler/Events.ts:71-79 | a throwing turn ends with one error frame naming text-input and replying to the request id, sends no complete, empties the buffer and records nothing |
| `Events.InvalidFrameRejected` | src/ws/handler/Events.ts:13-17 | an unparseable frame gets exactly one error with the invalid-format message |
| `Events.Dispatch` | src/ws/handler/Events.ts:19-29 | text-input runs a turn, fetch-backgrounds sends the (empty) file list, anything else one error naming the type |
| `Events.Memory.AddUserMessage` | src/ws/handler/Events.ts:66 | appends the user's entry |
| `Events.Memory.AddAiMessage` | src/ws/handler/Events.ts:67 | appends the answer's entry |
| `Events.ProcessCompleteText` | src/ws/handler/Events.ts:82-113 | never throws; sends the segment's full-text and audio frames as specified |
| `Events.ProcessCompleteTexts` | src/ws/handler/Events.ts:55-57 | handles the segments one after another, in order, each with its own vocabulary reading and synthesis call, numbered on from the segments handled before |
| `Events.SendAudio` | src/ws/handler/Events.ts:90-109 | sends exactly the audio frame the cleaning result calls for, if the socket is open, and leaves the open state alone |
| `Events.ReportTurnError` | src/ws/handler/Events.ts:71-79 | clears the buffer and sends one error frame to the requester |
| `Events.PumpChunks` | src/ws/handler/Events.ts:47-58 | accumulates the non-empty chunks, feeds them to the buffer, sends each returned segment's frames and counts the segments handled |
| `Events.RunTurn` | src/ws/handler/Events.ts:34-79 | sends exactly the turn's frames, leaves the buffer as specified and records memory only for a completed turn |
| `Events.StreamTurn` | src/ws/handler/Events.ts:47-69 | the part after thinking: the chunk loop, then flush, memory and complete, or the catch block |
| `Events.FinishTurn` | src/ws/handler/Events.ts:61-69 | flushes and empties the buffer, sends the flushed segments' frames (numbered after those already handled) then one complete frame echoing the message, and records the user text then the answer in memory |
| `Events.TextInput` | src/ws/handler/Events.ts:32-80 | runs the turn on the connection's buffer; no other connection's buffer is replaced |
| `Events.FetchBackgrounds` | src/ws/handler/Events.ts:115-119 | sends one background-files frame with an empty list |
| `Events.HandleEvents` | src/ws/handler/Events.ts:12-30 | sends what the dispatch specifies; only a turn touches the registry, the buffer and memory |
| `Events.HandleConnectionClose` | src/ws/handler/Events.ts:121-124 | forgets the connection's buffer and nothing else |
| `MessageQueues.UnreadOf` | src/tools/messageQueue.ts:83-85 | the unread messages in queue order; UnreadAppend and UnreadMembers state it |
| `MessageQueues.FirstUnread` | src/tools/messageQueue.ts:35 | the earliest unread message, or none when all are read |
| `MessageQueues.FindId` | src/tools/messageQueue.ts:48 | the first message with the id, or none when no message has it |
| `MessageQueues.MarkAll` | src/tools/messageQueue.ts:62-68 | every message is read afterwards, already-read ones unchanged, and each newly read one carries its own clock reading |
| `MessageQueues.UnreadAppend` | src/tools/messageQueue.ts:83-85 | the unread filter distributes over concatenation, so it keeps queue order |
| `MessageQueues.UnreadMembers` | src/tools/messageQueue.ts:83-85 | unread() holds only unread queued messages and is empty exactly when all are read |
| `MessageQueues.MarkAllLeavesNothingUnread` | src/tools/messageQueue.ts:60-70 | after marking all, nothing is unread |
| `MessageQueues.MessageQueue.constructor` | src/tools/messageQueue.ts:17 | a new queue is empty |
| `MessageQueues.MessageQueue.Add` | src/tools/messageQueue.ts:24-33 | appends one unread message with the text and returns it; earlier messages are untouched |
| `MessageQueues.MessageQueue.GetNextUnread` | src/tools/messageQueue.ts:34-41 | the earliest unread message takes the given read flag (true by default) and read time and is returned; with none, nothing changes |
| `MessageQueues.MessageQueue.MarkAsRead` | src/tools/messageQueue.ts:47-54 | false and no change for an unknown id; otherwise the first match is marked read and true |
| `MessageQueues.MessageQueue.MarkAllAsRead` | src/tools/messageQueue.ts:60-70 | returns how many were unread; each is marked read at its own clock reading, and afterwards none is unread |
| `MessageQueues.MessageQueue.Snapshot` | src/tools/messageQueue.ts:76-78 | a sequence equal to the queue |
| `MessageQueues.MessageQueue.Unread` | src/tools/messageQueue.ts:83-85 | the unread messages in queue order |
| `MessageQueues.MessageQueue.Size` | src/tools/messageQueue.ts:90-92 | the queue length |
| `MessageQueues.MessageQueue.UnreadSize` | src/tools/messageQueue.ts:97-99 | the length of unread() |
| `MessageQueues.MessageQueue.Clear` | src/tools/messageQueue.ts:104-106 | the queue becomes empty |
| `MessageQueues.MessageQueue.GetAll` | src/tools/messageQueue.ts:107-109 | the queue itself |
| `SpeechTts.EncodeChar` | src/ws/handler/speechTTS.ts:26 | one to four bytes; one byte, equal to the code, exactly for ASCII |
| `SpeechTts.EncodeCharRoundTrip` | src/ws/handler/speechTTS.ts:26 | decoding a character's UTF-8 bytes gives the character back |
| `SpeechTts.Utf8Ascii` | src/ws/handler/speechTTS.ts:26 | ASCII text encodes to one byte per character with the same values |
| `SpeechTts.EnsureBuffer` | src/ws/handler/speechTTS.ts:13-29 | a buffer unchanged, a list concatenated in order, a string as UTF-8, anything else an error naming its type |
| `SpeechTts.ConcatBytesAppend` | src/ws/handler/speechTTS.ts:22 | concatenation of buffer lists loses and reorders nothing |
| `SpeechTts.Base64Encode` | src/ws/handler/speechTTS.ts:64 | four characters per started group of three bytes |
| `SpeechTts.Base64RoundTrip` | src/ws/handler/speechTTS.ts:63-65 | encoding is well-formed base64 and decodes back to the bytes |
| `SpeechTts.AudioData` | src/ws/handler/speechTTS.ts:43-60 | the bytes after the first audio header, or the whole buffer when there is none |
| `SpeechTts.ProcessAudioChunkToBase64` | src/ws/handler/speechTTS.ts:38-69 | rejects what ensureBuffer rejects; otherwise base64 that is empty iff there is no audio and decodes to the audio bytes |
| `Transcript.U16LE` | src/routes/transcript.ts:27-28 | two bytes whose little-endian value is the input |
| `Transcript.U32LE` | src/routes/transcript.ts:23 | four bytes whose little-endian value is the input |
| `Transcript.Header` | src/routes/transcript.ts:18-36 | the header is 44 bytes |
| `Transcript.WavFile` | src/routes/transcript.ts:9-39 | a file exists exactly when every header value fits its field (the default rate is 10000) |
| `Transcript.HeaderLayout` | src/routes/transcript.ts:22-36 | RIFF, WAVE, fmt and data at 0, 8, 12, 36; file size less 8 at 4; 16, 3, 1 at 16, 20, 22; rate, rate*4, 4, 32 at 24, 28, 32, 34; data size at 40 |
| `Transcript.WavLayout` | src/routes/transcript.ts:13-38 | 44 + 4n bytes: the header for 4n data bytes, then the samples in order; the size fields match the file |
| `Transcript.Write` | src/routes/transcript.ts:22 | a write sets exactly its bytes at its offset |
| `Transcript.FillSamples` | src/routes/transcript.ts:13-16 | the data buffer holds the samples' bytes in order |
| `Transcript.WriteHeader` | src/routes/transcript.ts:18-36 | the written buffer is the specified header |
| `Transcript.Join` | src/routes/transcript.ts:38 | the concatenated buffer is a fresh buffer holding the header bytes followed by the data bytes |
| `Transcript.EncodeWav` | src/routes/transcript.ts:9-39 | the joined buffer is the specified file, or a throw when a field overflows |
| `Transcript.SearchError` | src/routes/transcript.ts:112-122 | a string as is, an error's message, otherwise 'Unknown error' |
| `ModelLoader.Put` | src/tools/model-loader.ts:110 | `Map.set` on an insertion-ordered map; PutFacts states what it does |
| `ModelLoader.PutFacts` | src/tools/model-loader.ts:110 | after set, the key reads as the value and others as before; a new key goes last, an old one keeps its place |
| `ModelLoader.BuildFacts` | src/tools/model-loader.ts:109-111 | after the set loop, each key reads as its last value and keys are listed once in first-appearance order |
| `ModelLoader.LastEntryWins` | src/tools/model-loader.ts:109-111 | a later duplicate expression name overwrites an earlier one |
| `ModelLoader.FirstLoaded` | src/tools/model-loader.ts:89-96 | nothing iff no candidate loads; otherwise the first that loads |
| `ModelLoader.ModelOf` | src/tools/model-loader.ts:80-99 | what `getModel` returns; GetModelOrder states it |
| `ModelLoader.GetModelOrder` | src/tools/model-loader.ts:80-99 | missing or empty name gives nothing; otherwise model3.json if it loads, else model.json |
| `ModelLoader.GetModel` | src/tools/model-loader.ts:80-99 | the candidate loop returns what the specification gives |
| `ModelLoader.Files` | src/tools/model-loader.ts:136 | a motion group's files in entry order |
| `ModelLoader.ExpressionsMeaning` | src/tools/model-loader.ts:101-120 | nothing for a missing or falsy model; a rejection for a `null` v2 `expressions`, a `null` `FileReferences` or a v3 file without an `Expressions` list; otherwise each name reads as its last entry's file, names are listed once in order, and a record of neither shape gives an empty map |
| `ModelLoader.MotionsMeaning` | src/tools/model-loader.ts:127-146 | nothing for a missing or falsy model; a rejection for a `null` v2 `motions`, a `null` `FileReferences` or a v3 file without a `Motions` object; otherwise each group reads as its entries' files, groups are listed once in order, and a record of neither shape gives an empty map |
| `ModelLoader.SetAll` | src/tools/model-loader.ts:109-111 | the set loop builds the specified map |
| `ModelLoader.GetExpressions` | src/tools/model-loader.ts:101-120 | the branches and the set loop settle exactly as specified: no map, a rejection, or the expression map |
| `ModelLoader.GetMotions` | src/tools/model-loader.ts:127-146 | the branches and the set loop settle exactly as specified: no map, a rejection, or the motion map |
| `ModelLoader.GetAllExpressions` | src/tools/model-loader.ts:152-157 | rejects exactly when getExpressions rejects; [] without a map, else its keys, each once |
| `ModelLoader.GetAllMotions` | src/tools/model-loader.ts:164-169 | rejects exactly when getMotions rejects; [] without a map, else its keys, each once |
| `Prompts.PromptOf` | src/prompts/promptGenerator.ts:8-16 | the prompt `generatePrompt` returns: each key's first `{key}` replaced in key order, then the first `{human_name}`, then the first `{style_rules}`; its meaning is stated by the lemmas below |
| `Prompts.GeneratePrompt` | src/prompts/promptGenerator.ts:8-16 | keys in order, then human name (default User), then style rules, each replacing its first placeholder |
| `Prompts.NoPlaceholderUnchanged` | src/prompts/promptGenerator.ts:9-15 | a template in which no `{key}`, `{human_name}` or `{style_rules}` occurs comes back unchanged, whatever other braces it holds |
| `Prompts.BracesWithoutPlaceholder` | src/prompts/promptGenerator.ts:10-14 | the template `a {x` with key `x` holds a brace but no placeholder, and comes back unchanged |
| `Prompts.FirstReplaced` | src/prompts/promptGenerator.ts:11-14 | the first occurrence is replaced and the text around it kept |
| `Prompts.OnlyFirstReplaced` | src/prompts/promptGenerator.ts:11 | a later occurrence of the same placeholder survives |
| `Prompts.GenerateGroupPrompt` | src/prompts/promptGenerator.ts:22-25 | the group intro naming the human and the other AIs, then the filled base prompt |
| `Characters.IsValidCharacterConfig` | src/types/characters.ts:72-82 | a non-null object, not an array, whose name, personality, background and speaking_style are strings; ConfigValidIff and ExtraFieldsIgnored state it |
| `Characters.IsValidCreateRequest` | src/types/characters.ts:84-92 | a non-null object whose name is a string with a visible character and whose config is valid |
| `Characters.IsValidUpdateRequest` | src/types/characters.ts:94-100 | a non-null object whose config is valid |
| `Characters.ConfigValidIff` | src/types/characters.ts:72-82 | valid iff a non-null, non-array object whose four required fields are strings |
| `Characters.ExtraFieldsIgnored` | src/types/characters.ts:72-82 | adding, changing or removing any other field never changes validity |
| `Characters.MissingConfigInvalid` | src/types/characters.ts:84-100 | a body without config is neither a valid create nor a valid update request |
| `Characters.CreateNameNotBlank` | src/types/characters.ts:84-92 | a valid create request's name has a visible character |
| `Characters.CreateIffUpdateWithName` | src/types/characters.ts:84-100 | a create request is valid iff it is a valid update request with a non-blank string name |
| `Characters.CreateIsUpdate` | src/types/characters.ts:84-100 | every valid create request is a valid update request |

## Left out

- I/O and foreign code become parameters:
  - the language model's stream (`streamResponse`);
  - speech synthesis (`textToSpeech`, `toBase64`);
  - `markAsRead`;
  - `JSON.parse` and the settings file reads;
  - `crypto.randomUUID` and `new Date()`: one clock reading per call, and one per message that `markAllAsRead` marks.
- `JSON.stringify` is not modelled: a sent frame is the JSON value it would serialise.
- Key order of parsed objects is not modelled. A configuration and motion groups are lists in `Object.keys` order; JavaScript puts integer-like keys first.
- Concurrency and `async` scheduling are not modelled. One turn runs to its end before the next frame is handled.
- The regular expressions are replaced by explicit scans.
- `$` patterns in `String.replace` replacement strings are not modelled. Replacements are taken literally.
- Strings are sequences of Unicode scalar values, not UTF-16 code units. `length` and `Buffer.from(text)` agree with JavaScript only outside surrogate pairs, and lone surrogates are not represented.
- Numbers are integers. `writeFloatLE` is not modelled: a sample is an opaque group of four bytes.
- The model assumes the WAV sample rate is `undefined` or an integer. `null`, non-integer or non-number values are not modelled, and a `Buffer.alloc` that fails for size is not modelled.
- Only the falsy and object cases of a parsed settings file are modelled. A file that parses to a truthy primitive, which would make the `in` test throw, is not. Neither are list or object fields holding a value of the wrong type, such as a number.
- `Events.HandleEvents`: the turn runs on the connection's buffer through `getOrCreateBuffer`. Aliasing between several sockets that share one buffer is not modelled.
- `MessageQueues.MessageQueue.GetAll`: returns the queue as a value. The source returns the live array, and later changes through it are not modelled. The same holds for messages returned by `Add` and `GetNextUnread`.
- `MessageQueues.MessageQueue.Snapshot`, `MessageQueues.MessageQueue.Unread`: return sequences of message values. The source returns new arrays holding the same message objects, so a later `getNextUnread`, `markAsRead` or `markAllAsRead` shows through them. That sharing is not modelled.
- The HTTP routers, the LLM/TTS clients, the storage layer, the server wiring and the asset listing are not part of this model.
