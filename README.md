# Aura: a Dafny model of the chat-and-speech core

Aura is a single-page emotional-support chat application. The user types
a message. The app streams the assistant's reply from a text model and
shows it as it arrives. It cuts the reply into sentences and has each one
spoken by a speech-synthesis model while the stream continues. The
sentences play back to back on one audio cursor. At the end of the turn
it synthesises the whole reply once more and stores that audio with the
message, for replay and for download as a WAV file. The app also records
mood entries, each followed by a canned chat message, and runs a breathing
exercise timer.

This project models that core in Dafny and proves properties of it:

- `wrappers.dfy` (`Wrappers`): `Option` and two sequence lemmas.
- `types.dfy` (`Types`): the records and enumerations of `types.ts` as
  datatypes, plus the initial state and the screen titles.
- `base64.dfy` (`Base64`): the browser's `atob`, as forgiving-base64
  decoding (WHATWG HTML standard, alphabet of section 4 of RFC 4648). A
  canonical encoder serves as its inverse.
- `audio_codec.dfy` (`AudioCodec`): `decodeBase64`, which fills a byte
  array in a loop, and `createWavBlob`, which writes a 44-byte RIFF/WAVE
  header and the PCM bytes into one buffer in place. A header reader
  serves as the writer's partner.
- `playback.dfy` (`Playback`): the cursor arithmetic of `playAudioBuffer`,
  in sample ticks of the 24 kHz output.
- `segmenter.dfy` (`Segmenter`): the sentence flush rule of the stream
  loop. That is the regular expression `/[.!?](\s|\n|$)/`, the UTF-16
  length guard and JavaScript `trim`. It also holds the segmenter's state
  after any sequence of chunks.
- `gemini_service.dfy` (`GeminiService`): how the chat request's
  `contents` are built, the speech prompt, the optional-chain extraction
  of the audio, and the error policy of the two service calls.
- `history.dfy` (`History`): the pure `setUserState` updaters. These are
  the lazy audio attachment by timestamp and the mood entry and its canned
  message.
- `breathing.dfy` (`Breathing`): the breathing-exercise tick.
- `app.dfy` (`App`): the component as a class `AuraApp`, with the state
  it updates in place (view, typing flag, mute flag, streaming text, user
  state, playback cursor). Its handlers are methods:
  - sending a message, which streams, speaks each sentence, speaks the
    trailing text, synthesises the full text and stores the reply;
  - replay;
  - download;
  - adding a mood entry.

  Each handler's `ensures` ties the new state to functions of the old
  state and of the services' answers. Lemmas about those functions state
  what a turn does.

The remote services are parameters of the handlers:

- `chat` maps a request's `contents` to the stream's outcome. The request
  can fail, or chunks arrive and the stream then ends or fails part-way.
- `tts` maps a speech prompt to a thrown error or to a response object.
- `clock` gives the audio device's time, in ticks, at the k-th
  `playAudioBuffer` call of a handler.
- Timestamps and dates are plain inputs.

Two ghost fields of `AuraApp` record every text sent to speech synthesis
and every segment handed to the audio device. The contracts state those
calls exactly.

Behaviours of the code worth knowing, all of which the model keeps:

- The sentence pattern is not anchored to the end of the accumulator. A
  terminator followed by whitespace anywhere in it is enough.
- The length guard (more than 15 UTF-16 code units) applies to the
  untrimmed accumulator. The trailing text after the stream needs no
  length, only a non-blank trim.
- The cursor is reset to 0, not to the device's current time, at the
  start of a turn and before a replay. Because 0 is at or before any
  clock reading, a reset segment starts at the clock.
- Sentence synthesis is awaited one sentence at a time, in order.
- A muted turn still makes the full-text synthesis call for the stored
  message.

## Model

| member | source | states |
|---|---|---|
| Types.InitialUserState | App.tsx:422-429 | with nothing saved, the state is named "Amiga" and both histories are empty |
| Types.ViewTitle | App.tsx:583-590 | each of the four screens has its own title, in both directions, and no title is empty |
| Types.ViewTitleInjective | App.tsx:583-590 | distinct screens have distinct titles, so the four cases are told apart |
| Base64.RemoveWhitespace | App.tsx:29 | `atob` first drops ASCII whitespace: the result has none, and text without any is unchanged |
| Base64.RemoveWhitespaceSingle | App.tsx:29 | one character is dropped exactly when it is ASCII whitespace |
| Base64.RemoveWhitespaceAppend | App.tsx:29 | dropping whitespace distributes over concatenation, so every other character is kept, in order |
| Base64.AtobIgnoresWhitespace | App.tsx:29 | inserting ASCII whitespace anywhere leaves the result of `atob`, or its failure, unchanged |
| Base64.StripPadding | App.tsx:29 | at most two trailing '=' are dropped, and only when the length is a multiple of four; the result is a prefix |
| Base64.DecodeChars | App.tsx:29 | the decoded length is three bytes per four characters, rounded down, so a final two or three characters give one or two bytes |
| Base64.ForgivingDecode | App.tsx:29 | `atob` throws exactly when the normalised text has length 1 modulo 4 or a non-alphabet character; otherwise it yields three bytes per four characters |
| Base64.Atob | App.tsx:29 | the binary string of `atob` has one character per decoded byte, with that byte as its code, and exists exactly when decoding succeeds |
| Base64.BinaryString | App.tsx:29-33 | character i has code byte i and the length is preserved |
| Base64.DecodeEncode | App.tsx:29 | decoding the canonical encoding of any bytes gives those bytes back |
| Base64.AtobOfEncode | App.tsx:29 | `atob` of the canonical encoding gives back any binary string |
| AudioCodec.ToUint8 | App.tsx:33 | a character code below 256 is stored unchanged in a `Uint8Array` element |
| AudioCodec.DecodeBase64 | App.tsx:28-36 | fails exactly when `atob` throws; otherwise the array has the binary string's length, byte i is the code of character i, and the bytes are the decoded ones |
| AudioCodec.WavFile | App.tsx:66 | the buffer is exactly 44 + dataSize bytes long |
| AudioCodec.WriteString | App.tsx:69-73 | stores one character code per byte from the offset and changes nothing else |
| AudioCodec.SetUint16 | App.tsx:80-85 | stores a 16-bit little-endian field at the offset and changes nothing else |
| AudioCodec.SetUint32 | App.tsx:76-87 | stores a 32-bit little-endian field, reduced modulo 2^32, at the offset and changes nothing else |
| AudioCodec.SetBytes | App.tsx:89 | copies the PCM bytes from byte 44 on and changes nothing else |
| AudioCodec.WriteRiffPart | App.tsx:75-78 | bytes 0..15 become "RIFF", LE32(36 + dataSize), "WAVE", "fmt "; the rest is unchanged |
| AudioCodec.WriteFormatPart | App.tsx:79-85 | bytes 16..35 become LE32 16, LE16 1, LE16 1, LE32 24000, LE32 48000, LE16 2, LE16 16; the rest is unchanged |
| AudioCodec.WriteDataPart | App.tsx:86-87 | bytes 36..43 become "data", LE32(dataSize); the rest is unchanged |
| AudioCodec.WavHeader | App.tsx:66-87 | the header is 44 bytes, with "RIFF", "WAVE", "fmt " and "data" at offsets 0, 8, 12 and 36 |
| AudioCodec.WriteHeader | App.tsx:75-87 | bytes 0..43 are the whole header and bytes 44 on are unchanged |
| AudioCodec.CreateWavBlob | App.tsx:57-91 | fails exactly when the base64 text does not decode; otherwise the buffer is the header for the PCM length followed by the PCM bytes unchanged |
| AudioCodec.ReadLE16OfLE16 | App.tsx:80-85 | a 16-bit field reads back as the value written |
| AudioCodec.ReadLE32OfLE32 | App.tsx:76-87 | a 32-bit field reads back as the value written, modulo 2^32 |
| AudioCodec.ParseWavFile | App.tsx:75-89 | a RIFF/WAVE reader finds the four tags, format chunk size 16, PCM tag 1, mono, 24000 Hz, byte rate 48000, block align 2, 16 bits, sizes 36 + n and n modulo 2^32, and the payload unchanged |
| AudioCodec.WavFileSizes | App.tsx:76-87 | when the sizes fit in 32 bits, the RIFF size is the file length minus 8 and the data size is the PCM length |
| Playback.Max | App.tsx:455 | the start time is at least the cursor and at least the clock, and is one of them |
| Playback.FrameCount | App.tsx:44-46 | a 16-bit mono buffer has half as many frames as bytes; odd or zero lengths throw before scheduling |
| Playback.Place | App.tsx:455-456 | a segment starts at max(cursor, now) |
| Playback.AudioFrames | App.tsx:448-449 | audio schedules a segment exactly when it decodes to a non-empty, even number of bytes, and lasts half that many ticks |
| Playback.AudioFramesOfEncode | App.tsx:448-449 | the canonical encoding of n PCM bytes, n even and non-zero, lasts n / 2 ticks |
| Playback.Enqueue | App.tsx:448-457 | one call appends one segment at max(cursor, now), moves the cursor to its end, never moves the cursor back, and changes nothing when the audio cannot be decoded |
| Playback.EnqueueChained | App.tsx:455-457 | one more call keeps all segments since a point ordered, non-overlapping and gapless where the audio is ready in time |
| Playback.PlayAllChained | App.tsx:455-457 | after any run of calls each segment starts at or after the end of every earlier one, exactly at the previous end unless the clock has passed it, and the cursor is the last end |
| Segmenter.SentenceEndTerminator | App.tsx:483 | the pattern needs a terminator, and a terminator at the very end always matches |
| Segmenter.SentenceEndUnanchored | App.tsx:483 | a terminator followed by whitespace matches wherever it sits, whatever text follows |
| Segmenter.TerminatorsInsideWords | App.tsx:483 | text in which every terminator is followed by a character other than whitespace does not match |
| Segmenter.TerminatorInsideWord | App.tsx:483 | the example "3.5 mil", whose only terminator is followed by a digit, does not match |
| Segmenter.Utf16Length | App.tsx:483 | `length` counts one or two code units per character, and exactly one per character of the Basic Multilingual Plane |
| Segmenter.Utf16LengthSingle | App.tsx:483 | one character counts exactly one code unit inside the Basic Multilingual Plane and exactly two outside it, so with `Utf16LengthAppend` the length of every text is fixed |
| Segmenter.Utf16LengthAppend | App.tsx:483 | the length of a concatenation is the sum of the lengths |
| Segmenter.FlushesByLength | App.tsx:483 | text of the Basic Multilingual Plane flushes exactly when it holds a sentence end and more than 15 characters; text of fewer than 8 characters never flushes |
| Segmenter.Trim | App.tsx:485 | the result of `trim` starts and ends with non-whitespace, is no longer than the text, and is empty exactly for blank text |
| Segmenter.TrimIsSlice | App.tsx:485 | the result of `trim` is the slice of the text between a blank prefix and a blank suffix |
| Segmenter.FlushedNotBlank | App.tsx:483-485 | a unit that passed the flush test is not blank, so its trimmed form is never empty |
| Segmenter.RunFlushCount | App.tsx:477-490 | each chunk flushes at most once, so there are never more flushes than chunks |
| Segmenter.Feed | App.tsx:478-489 | a chunk is appended to the full text and the accumulator; when the accumulator then flushes, it is recorded and cleared, otherwise it is kept |
| Segmenter.FeedConsistent | App.tsx:478-489 | one loop iteration keeps the segmenter invariant |
| Segmenter.RunConsistent | App.tsx:477-490 | after every chunk the full text is the concatenation of the chunks and of the flushed units followed by the accumulator; every flushed unit passed the test and the accumulator does not |
| Segmenter.FlushedUnitsLong | App.tsx:483 | every flushed unit is longer than 15 code units and holds a terminator followed by whitespace or the end |
| Segmenter.ReconstructsStream | App.tsx:477-495 | the flushed units and the trailing text together are the whole stream |
| GeminiService.ContentOf | geminiService.ts:20-23 | a 'user' message becomes a 'user' entry and any other a 'model' entry, with the message text as its only part |
| GeminiService.HistoryToContents | geminiService.ts:20-23 | one entry per history message, in order |
| GeminiService.RequestContentsShape | geminiService.ts:20-28 | the request has history length + 1 entries, the roles and texts of the history can be read back in order, and the last entry is the new user message |
| GeminiService.BuildContents | geminiService.ts:20-28 | the map and then the push build exactly that request |
| GeminiService.GetAuraResponseStream | geminiService.ts:17-46 | the service gets that request, and its outcome, failures included, is passed on |
| GeminiService.SpeechPrompt | geminiService.ts:54 | the speech prompt is the fixed instruction followed by the text |
| GeminiService.SpeechPromptInjective | geminiService.ts:54 | different texts give different prompts |
| GeminiService.ExtractAudio | geminiService.ts:65 | the result is the first candidate's first part's inline data exactly when that whole chain is present, and `undefined` otherwise, never `null` |
| GeminiService.GetAuraSpeech | geminiService.ts:48-70 | the result is `null` exactly when the service throws; otherwise it is the extracted audio |
| GeminiService.TruthyMeansAnswered | App.tsx:486 | a result is played exactly when the service answered, the whole optional chain was present and the data is not empty |
| GeminiService.AudioField | App.tsx:504 | `result \|\| undefined` keeps the audio exactly when it is a non-empty string |
| History.AttachAudio | App.tsx:529-532 | the map keeps length, order, role, content and timestamp, and sets the audio exactly on the messages with the given timestamp |
| History.AttachAudioIdempotent | App.tsx:531 | attaching the same audio twice is the same as once |
| History.AttachAudioOthersUnchanged | App.tsx:548 | messages with another timestamp are untouched, and with no match the history is unchanged |
| History.AttachAudioAppend | App.tsx:529-532 | attaching commutes with appending a message |
| History.FeelingWord | App.tsx:579-580 | scores 1..5 pick their phrase; any other score gives "undefined" |
| History.MoodMessage | App.tsx:580 | the canned message is the fixed prefix "Hoje estou me sentindo ", the phrase, and a final period |
| History.MoodMessageInjective | App.tsx:579-580 | different scores in 1..5 send different messages |
| History.NewMoodEntry | App.tsx:567-571 | the entry has the date, the score, no note and the timestamp |
| Breathing.Tick | App.tsx:152-159 | at 1 or below the phase advances Inale, Segure, Exale, Inale and the counter restarts at 4; otherwise the counter goes down by one; a counter in 1..4 stays in 1..4 |
| Breathing.CountdownEndsPhase | App.tsx:150-162 | from counter c in 1..4, c ticks reach the next phase with the counter at 4 |
| Breathing.CycleOf12 | App.tsx:150-162 | twelve ticks from any phase at 4 return to the same state |
| Breathing.CounterStaysInRange | App.tsx:150-162 | the counter stays in 1..4 for any number of ticks |
| App.JsText | App.tsx:478-480 | a chunk without text appends "undefined" |
| App.ChunkTexts | App.tsx:477-478 | one text per chunk, in order |
| App.Trims | App.tsx:485 | each unit is trimmed, in order |
| App.SentenceCalls | App.tsx:483-487 | when muted, no sentence is synthesised; otherwise every flushed unit is, trimmed, in flush order |
| App.SentenceCallsSnoc | App.tsx:483-488 | a flush adds one synthesis call when unmuted and none when muted |
| App.TrailingCall | App.tsx:492-495 | the trailing text is synthesised, trimmed, exactly when it is not blank and audio is on |
| App.AudibleNonEmpty | App.tsx:486 | only non-empty audio is ever played |
| App.AudibleSnoc | App.tsx:485-486 | one more synthesis adds its audio to the plays exactly when the result is a non-empty string |
| App.HasAudioOfField | App.tsx:521-544 | a stored `fullAudio \|\| undefined` counts as audio for replay and download exactly when the synthesis was truthy |
| App.SentenceCallsNonEmpty | App.tsx:483-485 | a flushed unit, trimmed, is never empty |
| App.SpokenTextsNonEmpty | App.tsx:483-495 | no text sent for speech during the stream is ever empty |
| App.TurnHistoryShape | App.tsx:461-512 | the user message is appended first; a completed stream adds exactly one assistant message whose content is all chunk texts concatenated and which has audio exactly when the full synthesis returned a non-empty string; a failure adds nothing more |
| App.TurnCallsShape | App.tsx:492-498 | a completed turn ends with one synthesis of the whole response after the spoken texts |
| App.MutedTurn | App.tsx:483-498 | when muted nothing is spoken or played; only the full-text synthesis remains |
| App.FailedRequestTurn | App.tsx:514-518 | a failed request makes no synthesis call, plays nothing and stores no reply |
| App.UnmutedSpokenUnits | App.tsx:477-495 | unmuted, the spoken texts are the flushed units trimmed, then the trailing text trimmed if not blank, and these units make up the whole stream |
| App.InterruptedTurn | App.tsx:477-518 | a stream failing part-way keeps the sentences already spoken, makes no further call and stores no reply |
| App.CompletedTurn | App.tsx:477-512 | a completed stream speaks the sentences and the trailing text, synthesises the full text, and stores it with its audio |
| App.AuraApp.constructor | App.tsx:418-429 | the saved state, or the default one, on the dashboard, not typing, unmuted, cursor 0 |
| App.AuraApp.ToggleMute | App.tsx:134 | the mute button flips the flag and changes nothing else |
| App.AuraApp.PlayAudioBuffer | App.tsx:438-458 | the device state moves exactly as `Enqueue` says and nothing else changes |
| App.AuraApp.RequestSpeech | App.tsx:498 | the result is the service's answer for the prompt, and the call is recorded |
| App.AuraApp.Speak | App.tsx:485-486 | synthesise, then play exactly when the result is a non-empty string |
| App.AuraApp.SpeakNext | App.tsx:485-486 | one more synthesis and play extend the turn's calls and plays |
| App.AuraApp.StreamStep | App.tsx:478-489 | one loop iteration moves the full text and accumulator as `Feed` does, and speaks the flushed unit when unmuted |
| App.AuraApp.StreamReply | App.tsx:477-490 | after the loop the full text and accumulator are the segmenter's, the synthesis calls are the flushed units trimmed (none when muted), and the plays are their non-empty results in order |
| App.AuraApp.SpeakTrailing | App.tsx:492-495 | the trailing synthesis and play happen exactly as `TrailingCall` says |
| App.AuraApp.StoreReply | App.tsx:498-512 | the full text is synthesised and the assistant message appended with the audio if non-empty; typing ends |
| App.AuraApp.FinishTurn | App.tsx:472-518 | after the request succeeds, the history, calls and plays follow the stream's outcome |
| App.AuraApp.HandleSendMessage | App.tsx:460-519 | the history becomes the turn history, the calls and plays are the turn's, the cursor restarts at 0, and typing and the streaming text are reset on every path |
| App.AuraApp.HandleReplay | App.tsx:521-538 | stored audio is replayed from a reset cursor with no synthesis; otherwise one synthesis, and on success play from a reset cursor and attach by timestamp; a failed synthesis changes nothing else |
| App.AuraApp.HandleDownload | App.tsx:540-564 | stored audio, or one synthesis attached by timestamp on success; the file is the WAV of the decoded audio; nothing is played |
| App.AuraApp.HandleAddMood | App.tsx:566-581 | exactly one mood entry is appended, the view switches to the chat, and the canned message for the score is sent as a normal turn |

## Left out

- The JSX components, styling and the mood chart: rendering only.
- `localStorage` loading and saving and the JSON round trip: browser
  persistence. The constructor takes the saved state as an optional
  input.
- `AudioContext` creation and resume, `createBufferSource`, `connect` and
  `start`: device side effects. Only the cursor arithmetic and the
  scheduled segments are modelled.
- The sample conversion `/ 32768.0` in `decodeAudioData`: floating point.
  Only the frame count is modelled. Time is counted in ticks of 1/24000
  s, so a buffer of n bytes lasts n / 2 ticks.
- The Blob, object URL and anchor click of the download: DOM I/O. The
  downloaded name ends in `.mp3` although the bytes are WAV; the model
  returns the bytes only.
- The network SDK calls: they are the oracle parameters `chat` and `tts`.
  The system instruction, model names, voice and sampling settings are
  configuration sent with them.
- `Date.now` and `toLocaleDateString`: inputs. `console.error`: logging.
- Async interleaving. `playAudioBuffer` is not awaited, so its body runs
  in call order, and the k-th call of a handler reads the clock at index
  k. `handleAddMood` does not await `handleSendMessage`; the model runs
  the turn to completion inside it.
- The `chat` and `tts` parameters are functions of the request alone. Two
  identical prompts in one turn therefore get the same answer. For
  example, a one-sentence reply sends the same text for its sentence and
  for its full-text synthesis, and the model makes both succeed or fail
  together. The real service may answer them differently.
- React state batching and stale closures. `handleSendMessage` reads
  `userState.chatHistory` and `isMuted` from its closure. The model reads
  the current fields, which no one else changes during a turn.
- App.AuraApp.PlayAudioBuffer: a decoding failure is modelled as a return
  that leaves everything unchanged, not as a rejected promise.
- App.AuraApp.HandleDownload: the exception `atob` throws inside
  `createWavBlob` is modelled as the result `DecodeFailed`.
- Types.MoodEntry score: the range 1..5 is only documented, and nothing
  enforces it. The model accepts any integer, and `FeelingWord` gives
  "undefined" outside the range.
