/**
 * The state of the App component and its handlers: sending a message
 * (streaming, sentence-by-sentence speech, the full-turn audio), replay,
 * download and mood entry. The remote services are parameters: `chat`
 * answers a streaming request, `tts` answers a speech prompt, and `clock`
 * gives the audio device's time (in ticks) at the k-th `playAudioBuffer`
 * call of a handler.
 */
module App {
  import opened Wrappers
  import opened Base64
  import opened Types
  import opened AudioCodec
  import opened Playback
  import opened Segmenter
  import opened GeminiService
  import opened History

  // ----- What a turn does, as functions of the services' answers -----

  /** `text += chunk.text`: JavaScript appends an undefined text as "undefined". */
  function JsText(c: Chunk): (t: string)
    ensures c.text.Some? ==> t == c.text.value
    ensures c.text.None? ==> t == "undefined"
  {
    match c.text
    case Some(s) => s
    case None => "undefined"
  }

  function ChunkTexts(chunks: seq<Chunk>): (ts: seq<string>)
    ensures |ts| == |chunks| && forall i | 0 <= i < |chunks| :: ts[i] == JsText(chunks[i])
  {
    seq(|chunks|, i requires 0 <= i < |chunks| => JsText(chunks[i]))
  }

  /** Each unit trimmed, in order. */
  function Trims(units: seq<string>): (r: seq<string>)
    ensures |r| == |units| && forall k | 0 <= k < |units| :: r[k] == Trim(units[k])
  {
    seq(|units|, k requires 0 <= k < |units| => Trim(units[k]))
  }

  /** The texts the stream loop sends to speech synthesis: every flushed unit, trimmed, unless muted. */
  function SentenceCalls(flushed: seq<string>, muted: bool): (calls: seq<string>)
    ensures muted ==> calls == []
    ensures !muted ==> calls == Trims(flushed)
  {
    if muted then [] else Trims(flushed)
  }

  lemma TrimsSnoc(units: seq<string>, u: string)
    ensures Trims(units + [u]) == Trims(units) + [Trim(u)]
  {
    var a, b := Trims(units + [u]), Trims(units) + [Trim(u)];
    assert |a| == |b|;
    forall k | 0 <= k < |a| ensures a[k] == b[k] {
      if k < |units| {
        assert (units + [u])[k] == units[k];
        assert b[k] == Trims(units)[k];
      } else {
        assert (units + [u])[k] == u;
      }
    }
  }

  lemma SentenceCallsSnoc(flushed: seq<string>, u: string, muted: bool)
    ensures SentenceCalls(flushed + [u], muted) == SentenceCalls(flushed, muted) + (if muted then [] else [Trim(u)])
  {
    if !muted {
      TrimsSnoc(flushed, u);
    }
  }

  /** After the loop, the trailing text is spoken when it is not blank and audio is on. */
  function TrailingCall(pending: string, muted: bool): (calls: seq<string>)
    ensures calls == [] || calls == [Trim(pending)]
    ensures calls != [] <==> !muted && !IsBlank(pending)
  {
    if Trim(pending) != "" && !muted then [Trim(pending)] else []
  }

  /** The audio handed to `playAudioBuffer` for the given speech texts: the truthy results, in order. */
  function Audible(calls: seq<string>, tts: string -> TtsOutcome): (audios: seq<string>)
    ensures |audios| <= |calls|
  {
    if calls == [] then []
    else
      var r := GetAuraSpeech(calls[0], tts);
      (if Truthy(r) then [r.data] else []) + Audible(calls[1..], tts)
  }

  /** Only non-empty audio is ever played. */
  lemma {:induction false} AudibleNonEmpty(calls: seq<string>, tts: string -> TtsOutcome)
    ensures forall k | 0 <= k < |Audible(calls, tts)| :: Audible(calls, tts)[k] != ""
  {
    if calls != [] {
      AudibleNonEmpty(calls[1..], tts);
    }
  }

  lemma {:induction false} AudibleSnoc(calls: seq<string>, t: string, tts: string -> TtsOutcome)
    ensures Audible(calls + [t], tts)
         == Audible(calls, tts) + (if Truthy(GetAuraSpeech(t, tts)) then [GetAuraSpeech(t, tts).data] else [])
  {
    if calls != [] {
      assert (calls + [t])[1..] == calls[1..] + [t];
      AudibleSnoc(calls[1..], t, tts);
    }
  }

  /** The speech texts of a turn whose result is played (the sentences and the trailing text). */
  function TurnSpoken(outcome: StreamOutcome, muted: bool): seq<string> {
    match outcome
    case RequestFailed => []
    case Streamed(chunks, interrupted) =>
      var seg := Run(ChunkTexts(chunks));
      SentenceCalls(seg.flushed, muted) + (if interrupted then [] else TrailingCall(seg.pending, muted))
  }

  /** Every text a turn passes to `getAuraSpeech`: the spoken ones, then the full response. */
  function TurnCalls(outcome: StreamOutcome, muted: bool): seq<string> {
    match outcome
    case RequestFailed => []
    case Streamed(chunks, interrupted) =>
      TurnSpoken(outcome, muted) + (if interrupted then [] else [Run(ChunkTexts(chunks)).full])
  }

  /** The audio a turn hands to `playAudioBuffer`, in order. */
  function TurnPlays(outcome: StreamOutcome, muted: bool, tts: string -> TtsOutcome): seq<string> {
    Audible(TurnSpoken(outcome, muted), tts)
  }

  /** The assistant message a turn appends: only when the stream ended without an error. */
  function TurnReply(outcome: StreamOutcome, repliedAt: int, tts: string -> TtsOutcome): Option<Message> {
    match outcome
    case RequestFailed => None
    case Streamed(chunks, interrupted) =>
      if interrupted then None
      else
        var full := Run(ChunkTexts(chunks)).full;
        Some(Message(Assistant, full, repliedAt, AudioField(GetAuraSpeech(full, tts))))
  }

  function OptionToSeq<T>(o: Option<T>): (s: seq<T>)
    ensures o.None? ==> s == []
    ensures o.Some? ==> s == [o.value]
  {
    match o
    case None => []
    case Some(v) => [v]
  }

  /** The chat history after a turn: the user message, then the reply if there is one. */
  function TurnHistory(history: seq<Message>, userMsg: Message, outcome: StreamOutcome, repliedAt: int,
                       tts: string -> TtsOutcome): seq<Message> {
    history + [userMsg] + OptionToSeq(TurnReply(outcome, repliedAt, tts))
  }

  // ----- Properties of a turn -----

  /**
   * A completed stream appends exactly one assistant message after the user
   * message; its content is every chunk's text concatenated, and it carries
   * audio exactly when the full-text synthesis returned a non-empty string.
   * A failed request or an interrupted stream appends only the user message.
   */
  lemma TurnHistoryShape(history: seq<Message>, userMsg: Message, outcome: StreamOutcome, repliedAt: int,
                         tts: string -> TtsOutcome)
    ensures var h := TurnHistory(history, userMsg, outcome, repliedAt, tts);
      && h[..|history| + 1] == history + [userMsg]
      && (outcome.RequestFailed? || outcome.interrupted ==> |h| == |history| + 1)
      && (outcome.Streamed? && !outcome.interrupted ==>
            && |h| == |history| + 2
            && h[|history| + 1].role == Assistant
            && h[|history| + 1].timestamp == repliedAt
            && h[|history| + 1].content == Concat(ChunkTexts(outcome.chunks))
            && (h[|history| + 1].audioBase64.Some? <==> Truthy(GetAuraSpeech(Concat(ChunkTexts(outcome.chunks)), tts))))
  {
    if outcome.Streamed? {
      RunConsistent(ChunkTexts(outcome.chunks));
    }
  }

  /** A completed turn ends with one synthesis of the whole response, after the spoken texts. */
  lemma TurnCallsShape(outcome: StreamOutcome, muted: bool)
    requires outcome.Streamed? && !outcome.interrupted
    ensures var calls := TurnCalls(outcome, muted);
      && |calls| >= 1
      && calls[|calls| - 1] == Concat(ChunkTexts(outcome.chunks))
      && calls[..|calls| - 1] == TurnSpoken(outcome, muted)
  {
    RunConsistent(ChunkTexts(outcome.chunks));
    var calls := TurnCalls(outcome, muted);
    assert calls[..|calls| - 1] == TurnSpoken(outcome, muted);
  }

  /**
   * When muted, nothing is spoken: no sentence or trailing synthesis and no
   * playback. Only the full-text synthesis for the stored message remains.
   */
  lemma MutedTurn(outcome: StreamOutcome, tts: string -> TtsOutcome)
    ensures TurnSpoken(outcome, true) == [] && TurnPlays(outcome, true, tts) == []
    ensures outcome.Streamed? && !outcome.interrupted ==> TurnCalls(outcome, true) == [Concat(ChunkTexts(outcome.chunks))]
  {
    if outcome.Streamed? {
      RunConsistent(ChunkTexts(outcome.chunks));
    }
  }

  /** When the request itself fails, no synthesis is requested and nothing is played. */
  lemma FailedRequestTurn(muted: bool, repliedAt: int, tts: string -> TtsOutcome)
    ensures TurnCalls(RequestFailed, muted) == [] && TurnPlays(RequestFailed, muted, tts) == []
    ensures TurnReply(RequestFailed, repliedAt, tts).None?
  {
  }

  /**
   * When unmuted, the spoken texts are the flushed units trimmed, in
   * order, then the trailing text trimmed if it is not blank; the
   * untrimmed units together make up the whole response.
   */
  lemma UnmutedSpokenUnits(chunks: seq<Chunk>)
    ensures var seg := Run(ChunkTexts(chunks));
      TurnSpoken(Streamed(chunks, false), false)
        == SentenceCalls(seg.flushed, false) + (if IsBlank(seg.pending) then [] else [Trim(seg.pending)])
    ensures var seg := Run(ChunkTexts(chunks));
      Concat(seg.flushed + [seg.pending]) == Concat(ChunkTexts(chunks))
  {
    ReconstructsStream(ChunkTexts(chunks));
  }

  /** No text sent for speech during the stream is ever empty: every one is a non-blank unit, trimmed. */
  lemma SpokenTextsNonEmpty(outcome: StreamOutcome, muted: bool)
    ensures forall k | 0 <= k < |TurnSpoken(outcome, muted)| :: TurnSpoken(outcome, muted)[k] != ""
  {
    if outcome.Streamed? {
      var seg := Run(ChunkTexts(outcome.chunks));
      RunConsistent(ChunkTexts(outcome.chunks));
      var sentences := SentenceCalls(seg.flushed, muted);
      var trailing := if outcome.interrupted then [] else TrailingCall(seg.pending, muted);
      SentenceCallsNonEmpty(seg.flushed, muted);
      assert forall k | 0 <= k < |trailing| :: trailing[k] != "";
      NoEmptyAppend(sentences, trailing);
    }
  }

  /** Flushed units trimmed are never empty. */
  lemma SentenceCallsNonEmpty(flushed: seq<string>, muted: bool)
    requires forall k | 0 <= k < |flushed| :: Flushes(flushed[k])
    ensures forall k | 0 <= k < |SentenceCalls(flushed, muted)| :: SentenceCalls(flushed, muted)[k] != ""
  {
    forall k | 0 <= k < |SentenceCalls(flushed, muted)| ensures SentenceCalls(flushed, muted)[k] != "" {
      FlushedNotBlank(flushed[k]);
    }
  }

  lemma NoEmptyAppend(a: seq<string>, b: seq<string>)
    requires forall k | 0 <= k < |a| :: a[k] != ""
    requires forall k | 0 <= k < |b| :: b[k] != ""
    ensures forall k | 0 <= k < |a + b| :: (a + b)[k] != ""
  {
    forall k | 0 <= k < |a + b| ensures (a + b)[k] != "" {
      if k >= |a| {
        assert (a + b)[k] == b[k - |a|];
      }
    }
  }

  /** A stream that fails part-way: its sentences were spoken, and nothing else happens. */
  lemma InterruptedTurn(outcome: StreamOutcome, muted: bool, repliedAt: int, tts: string -> TtsOutcome)
    requires outcome.Streamed? && outcome.interrupted
    ensures TurnSpoken(outcome, muted) == SentenceCalls(Run(ChunkTexts(outcome.chunks)).flushed, muted)
    ensures TurnCalls(outcome, muted) == TurnSpoken(outcome, muted)
    ensures TurnReply(outcome, repliedAt, tts) == None
  {
    assert SentenceCalls(Run(ChunkTexts(outcome.chunks)).flushed, muted) + []
        == SentenceCalls(Run(ChunkTexts(outcome.chunks)).flushed, muted);
  }

  /** A stream that completes: sentences, the trailing text, then the full text. */
  lemma CompletedTurn(outcome: StreamOutcome, muted: bool, repliedAt: int, tts: string -> TtsOutcome)
    requires outcome.Streamed? && !outcome.interrupted
    ensures var seg := Run(ChunkTexts(outcome.chunks));
      && TurnSpoken(outcome, muted) == SentenceCalls(seg.flushed, muted) + TrailingCall(seg.pending, muted)
      && TurnCalls(outcome, muted) == TurnSpoken(outcome, muted) + [seg.full]
      && TurnReply(outcome, repliedAt, tts)
         == Some(Message(Assistant, seg.full, repliedAt, AudioField(GetAuraSpeech(seg.full, tts))))
  {
  }

  /** `!msg.audioBase64`: a missing or empty audio string counts as no audio. */
  predicate HasAudio(msg: Message) {
    msg.audioBase64.Some? && msg.audioBase64.value != ""
  }

  /** The audio field a turn stores counts as audio for replay and download exactly when the synthesis was truthy. */
  lemma HasAudioOfField(msg: Message, r: SpeechResult)
    ensures HasAudio(msg.(audioBase64 := AudioField(r))) <==> Truthy(r)
  {
  }

  /** What the download handler ends with. */
  datatype DownloadResult = NoAudio | DecodeFailed | WavDownload(bytes: seq<Byte>)

  // ----- The component -----

  class AuraApp {
    var view: View
    var isTyping: bool
    var isMuted: bool
    var streamingText: string
    var userState: UserState
    /** `nextStartTimeRef.current`, in ticks. */
    var nextStartTime: nat
    /** Every segment handed to the audio device so far, in call order. */
    ghost var scheduled: seq<Slot>
    /** Every text passed to `getAuraSpeech` so far, in call order. */
    ghost var speechCalls: seq<string>

    ghost function Playback(): PlayState
      reads this
    {
      PlayState(nextStartTime, scheduled)
    }

    /** The initial render: the saved state if there is one, otherwise the default one. */
    constructor (saved: Option<UserState>)
      ensures userState == saved.GetOr(InitialUserState())
      ensures view == Dashboard && !isTyping && !isMuted && streamingText == ""
      ensures nextStartTime == 0 && scheduled == [] && speechCalls == []
    {
      view := Dashboard;
      isTyping := false;
      isMuted := false;
      streamingText := "";
      userState := saved.GetOr(InitialUserState());
      nextStartTime := 0;
      scheduled := [];
      speechCalls := [];
    }

    /** The mute button: flips the flag and changes nothing else. */
    method ToggleMute()
      modifies this
      ensures isMuted == !old(isMuted)
      ensures view == old(view) && isTyping == old(isTyping) && streamingText == old(streamingText)
      ensures userState == old(userState) && Playback() == old(Playback()) && speechCalls == old(speechCalls)
    {
      isMuted := !isMuted;
    }

    /**
     * `playAudioBuffer` at device time `now`: decode, start at
     * max(cursor, now), move the cursor to the segment's end. Audio that
     * cannot be decoded stops the call before anything is scheduled.
     */
    method PlayAudioBuffer(base64Audio: string, now: nat)
      modifies this
      ensures Playback() == Enqueue(old(Playback()), now, base64Audio)
      ensures userState == old(userState) && speechCalls == old(speechCalls)
      ensures view == old(view) && isTyping == old(isTyping) && isMuted == old(isMuted)
      ensures streamingText == old(streamingText)
    {
      var audioBytes := DecodeBase64(base64Audio);
      if audioBytes.None? {
        return;
      }
      var bytes := audioBytes.value;
      if bytes.Length == 0 || bytes.Length % 2 == 1 {
        return;
      }
      var frames := bytes.Length / 2;
      var startTime := Max(nextStartTime, now);
      scheduled := scheduled + [Slot(now, startTime, frames)];
      nextStartTime := startTime + frames;
    }

    /** One `getAuraSpeech` call, recorded. */
    method RequestSpeech(text: string, tts: string -> TtsOutcome) returns (r: SpeechResult)
      modifies this
      ensures r == GetAuraSpeech(text, tts)
      ensures speechCalls == old(speechCalls) + [text]
      ensures Playback() == old(Playback()) && userState == old(userState)
      ensures view == old(view) && isTyping == old(isTyping) && isMuted == old(isMuted)
      ensures streamingText == old(streamingText)
    {
      speechCalls := speechCalls + [text];
      r := GetAuraSpeech(text, tts);
    }

    /** `const a = await getAuraSpeech(text); if (a) playAudioBuffer(a);` */
    method Speak(text: string, tts: string -> TtsOutcome, now: nat) returns (played: bool)
      modifies this
      ensures played == Truthy(GetAuraSpeech(text, tts))
      ensures speechCalls == old(speechCalls) + [text]
      ensures Playback() == if played then Enqueue(old(Playback()), now, GetAuraSpeech(text, tts).data) else old(Playback())
      ensures userState == old(userState)
      ensures view == old(view) && isTyping == old(isTyping) && isMuted == old(isMuted)
      ensures streamingText == old(streamingText)
    {
      var sentenceAudio := RequestSpeech(text, tts);
      played := Truthy(sentenceAudio);
      if played {
        PlayAudioBuffer(sentenceAudio.data, now);
      }
    }

    /**
     * The `for await` loop of `handleSendMessage`: accumulate every chunk's
     * text, show it, and speak the pending text whenever it flushes.
     */
    method StreamReply(chunks: seq<Chunk>, tts: string -> TtsOutcome, clock: nat -> nat)
      returns (fullResponseText: string, currentSentence: string, playCount: nat)
      modifies this
      ensures var seg := Run(ChunkTexts(chunks));
        && fullResponseText == seg.full && currentSentence == seg.pending
        && speechCalls == old(speechCalls) + SentenceCalls(seg.flushed, isMuted)
        && playCount == |Audible(SentenceCalls(seg.flushed, isMuted), tts)|
        && Playback() == PlayAll(old(Playback()), Audible(SentenceCalls(seg.flushed, isMuted), tts), clock)
      ensures streamingText == fullResponseText
      ensures userState == old(userState) && isTyping == old(isTyping)
      ensures view == old(view) && isMuted == old(isMuted)
    {
      ghost var texts := ChunkTexts(chunks);
      ghost var start := Playback();
      fullResponseText := "";
      currentSentence := "";
      playCount := 0;
      ghost var seg := Run([]);
      ghost var spoken: seq<string> := [];
      ghost var calls0 := speechCalls;
      streamingText := fullResponseText;

      for i := 0 to |chunks|
        invariant seg == Run(texts[..i])
        invariant seg.full == fullResponseText && seg.pending == currentSentence
        invariant spoken == SentenceCalls(seg.flushed, isMuted)
        invariant speechCalls == calls0 + spoken
        invariant playCount == |Audible(spoken, tts)|
        invariant Playback() == PlayAll(start, Audible(spoken, tts), clock)
        invariant streamingText == fullResponseText
        invariant userState == old(userState) && isTyping == old(isTyping)
        invariant view == old(view) && isMuted == old(isMuted)
      {
        RunPrefixSnoc(texts, i);
        fullResponseText, currentSentence, playCount, spoken :=
          StreamStep(JsText(chunks[i]), fullResponseText, currentSentence, playCount, tts, clock, start, calls0, seg, spoken);
        seg := Feed(seg, texts[i]);
      }
      RunWhole(texts);
    }

    /** One iteration of the stream loop. */
    method StreamStep(textChunk: string, fullResponseText: string, currentSentence: string, playCount: nat,
                      tts: string -> TtsOutcome, clock: nat -> nat,
                      ghost start: PlayState, ghost calls0: seq<string>, ghost seg: Segmentation, ghost spoken: seq<string>)
      returns (fullResponseText': string, currentSentence': string, playCount': nat, ghost spoken': seq<string>)
      requires seg.full == fullResponseText && seg.pending == currentSentence
      requires spoken == SentenceCalls(seg.flushed, isMuted)
      requires speechCalls == calls0 + spoken
      requires playCount == |Audible(spoken, tts)|
      requires Playback() == PlayAll(start, Audible(spoken, tts), clock)
      modifies this
      ensures Feed(seg, textChunk).full == fullResponseText' && Feed(seg, textChunk).pending == currentSentence'
      ensures spoken' == SentenceCalls(Feed(seg, textChunk).flushed, isMuted)
      ensures speechCalls == calls0 + spoken'
      ensures playCount' == |Audible(spoken', tts)|
      ensures Playback() == PlayAll(start, Audible(spoken', tts), clock)
      ensures streamingText == fullResponseText'
      ensures userState == old(userState) && isTyping == old(isTyping)
      ensures view == old(view) && isMuted == old(isMuted)
    {
      fullResponseText' := fullResponseText + textChunk;
      currentSentence' := currentSentence + textChunk;
      streamingText := fullResponseText';
      playCount' := playCount;
      spoken' := spoken;
      if HasSentenceEnd(currentSentence') && Utf16Length(currentSentence') > MinLength {
        SentenceCallsSnoc(seg.flushed, currentSentence', isMuted);
        if !isMuted {
          var sentence := Trim(currentSentence');
          playCount' := SpeakNext(sentence, tts, clock, playCount, start, calls0, spoken);
          spoken' := spoken + [sentence];
        }
        currentSentence' := "";
      }
    }

    /** After the loop: `if (currentSentence.trim() && !isMuted)`, speak the trailing text. */
    method SpeakTrailing(currentSentence: string, tts: string -> TtsOutcome, clock: nat -> nat, playCount: nat,
                         ghost start: PlayState, ghost calls0: seq<string>, ghost spoken: seq<string>)
      requires speechCalls == calls0 + spoken
      requires playCount == |Audible(spoken, tts)|
      requires Playback() == PlayAll(start, Audible(spoken, tts), clock)
      modifies this
      ensures speechCalls == calls0 + (spoken + TrailingCall(currentSentence, isMuted))
      ensures Playback() == PlayAll(start, Audible(spoken + TrailingCall(currentSentence, isMuted), tts), clock)
      ensures userState == old(userState) && streamingText == old(streamingText)
      ensures view == old(view) && isTyping == old(isTyping) && isMuted == old(isMuted)
    {
      if Trim(currentSentence) != "" && !isMuted {
        var sentence := Trim(currentSentence);
        var _ := SpeakNext(sentence, tts, clock, playCount, start, calls0, spoken);
      } else {
        assert spoken + TrailingCall(currentSentence, isMuted) == spoken;
      }
    }

    /**
     * Speak one more text during a turn whose earlier spoken texts are
     * `spoken`; the device time of a play is the clock at the play's index.
     */
    method SpeakNext(text: string, tts: string -> TtsOutcome, clock: nat -> nat, playCount: nat,
                     ghost start: PlayState, ghost calls0: seq<string>, ghost spoken: seq<string>) returns (playCount': nat)
      requires speechCalls == calls0 + spoken
      requires playCount == |Audible(spoken, tts)|
      requires Playback() == PlayAll(start, Audible(spoken, tts), clock)
      modifies this
      ensures speechCalls == calls0 + (spoken + [text])
      ensures playCount' == |Audible(spoken + [text], tts)|
      ensures Playback() == PlayAll(start, Audible(spoken + [text], tts), clock)
      ensures userState == old(userState) && streamingText == old(streamingText)
      ensures view == old(view) && isTyping == old(isTyping) && isMuted == old(isMuted)
    {
      ghost var audible := Audible(spoken, tts);
      ghost var before := Playback();
      var played := Speak(text, tts, clock(playCount));
      assert speechCalls == calls0 + (spoken + [text]);
      AudibleSnoc(spoken, text, tts);
      if played {
        ghost var a := GetAuraSpeech(text, tts).data;
        PlayAllSnoc(start, audible, a, clock);
        assert Audible(spoken + [text], tts) == audible + [a];
        playCount' := playCount + 1;
      } else {
        assert Audible(spoken + [text], tts) == audible;
        playCount' := playCount;
      }
    }

    /**
     * `handleSendMessage`: append the user message, reset the cursor, stream
     * the reply while speaking each flushed sentence, speak the trailing
     * text, synthesise the full text, and append the assistant message. A
     * failed request or stream leaves only the user message behind.
     */
    method HandleSendMessage(content: string, sentAt: int, repliedAt: int,
                             chat: seq<Content> -> StreamOutcome, tts: string -> TtsOutcome, clock: nat -> nat)
      modifies this
      ensures var outcome := chat(RequestContents(content, old(userState.chatHistory)));
        && userState == old(userState).(chatHistory := TurnHistory(old(userState.chatHistory),
             Message(User, content, sentAt, None), outcome, repliedAt, tts))
        && speechCalls == old(speechCalls) + TurnCalls(outcome, isMuted)
        && Playback() == PlayAll(PlayState(0, old(scheduled)), TurnPlays(outcome, isMuted, tts), clock)
      ensures !isTyping && streamingText == ""
      ensures view == old(view) && isMuted == old(isMuted)
    {
      var userMsg := Message(User, content, sentAt, None);
      var history := userState.chatHistory;
      userState := userState.(chatHistory := userState.chatHistory + [userMsg]);
      isTyping := true;
      streamingText := "";
      nextStartTime := 0;
      assert Playback() == PlayState(0, old(scheduled));

      var responseStream := GetAuraResponseStream(content, history, chat);
      if responseStream.RequestFailed? {
        FailedRequestTurn(isMuted, repliedAt, tts);
        AppendEmpty(speechCalls);
        isTyping := false;
        streamingText := "";
        return;
      }
      FinishTurn(responseStream, repliedAt, tts, clock);
    }

    /**
     * The rest of `handleSendMessage` once the stream has been opened:
     * read it, speak as it goes, then store the reply. An error part-way
     * through the stream drops the reply.
     */
    method FinishTurn(responseStream: StreamOutcome, repliedAt: int, tts: string -> TtsOutcome, clock: nat -> nat)
      requires responseStream.Streamed?
      modifies this
      ensures userState == old(userState).(chatHistory := old(userState.chatHistory)
                + OptionToSeq(TurnReply(responseStream, repliedAt, tts)))
      ensures speechCalls == old(speechCalls) + TurnCalls(responseStream, isMuted)
      ensures Playback() == PlayAll(old(Playback()), TurnPlays(responseStream, isMuted, tts), clock)
      ensures !isTyping && streamingText == ""
      ensures view == old(view) && isMuted == old(isMuted)
    {
      ghost var start := Playback();
      ghost var muted := isMuted;
      var chunks := responseStream.chunks;
      ghost var calls0 := speechCalls;
      var fullResponseText, currentSentence, playCount := StreamReply(chunks, tts, clock);
      ghost var spoken := SentenceCalls(Run(ChunkTexts(chunks)).flushed, muted);

      if responseStream.interrupted {
        InterruptedTurn(responseStream, muted, repliedAt, tts);
        assert TurnPlays(responseStream, muted, tts) == Audible(spoken, tts);
        assert Playback() == PlayAll(start, Audible(spoken, tts), clock);
        isTyping := false;
        streamingText := "";
        return;
      }

      CompletedTurn(responseStream, muted, repliedAt, tts);
      ghost var turnSpoken := spoken + TrailingCall(currentSentence, muted);
      assert TurnSpoken(responseStream, muted) == turnSpoken;
      assert TurnPlays(responseStream, muted, tts) == Audible(turnSpoken, tts);
      SpeakTrailing(currentSentence, tts, clock, playCount, start, calls0, spoken);
      assert Playback() == PlayAll(start, Audible(turnSpoken, tts), clock);
      StoreReply(fullResponseText, repliedAt, tts, calls0, turnSpoken);
      assert isMuted == muted;
    }

    /** The end of a completed turn: synthesise the full text and store the assistant message. */
    method StoreReply(fullResponseText: string, repliedAt: int, tts: string -> TtsOutcome,
                      ghost calls0: seq<string>, ghost spoken: seq<string>)
      requires speechCalls == calls0 + spoken
      modifies this
      ensures speechCalls == calls0 + (spoken + [fullResponseText])
      ensures userState == old(userState).(chatHistory := old(userState.chatHistory)
                + [Message(Assistant, fullResponseText, repliedAt, AudioField(GetAuraSpeech(fullResponseText, tts)))])
      ensures Playback() == old(Playback())
      ensures !isTyping && streamingText == ""
      ensures view == old(view) && isMuted == old(isMuted)
    {
      var fullAudio := RequestSpeech(fullResponseText, tts);
      AppendAssoc(calls0, spoken, [fullResponseText]);
      var auraMsg := Message(Assistant, fullResponseText, repliedAt, AudioField(fullAudio));
      userState := userState.(chatHistory := userState.chatHistory + [auraMsg]);
      streamingText := "";
      isTyping := false;
    }

    /**
     * `handleReplay`: a message that already carries audio is replayed from
     * a reset cursor with no synthesis call; otherwise its content is
     * synthesised and, on success, played from a reset cursor and attached
     * to every message with the same timestamp. A failed synthesis changes
     * nothing else.
     */
    method HandleReplay(msg: Message, tts: string -> TtsOutcome, now: nat)
      modifies this
      ensures HasAudio(msg) ==>
        && speechCalls == old(speechCalls)
        && userState == old(userState)
        && Playback() == Enqueue(PlayState(0, old(scheduled)), now, msg.audioBase64.value)
      ensures !HasAudio(msg) ==>
        var audio := GetAuraSpeech(msg.content, tts);
        && speechCalls == old(speechCalls) + [msg.content]
        && (Truthy(audio) ==>
              && Playback() == Enqueue(PlayState(0, old(scheduled)), now, audio.data)
              && userState == old(userState).(chatHistory := AttachAudio(old(userState.chatHistory), msg.timestamp, audio.data)))
        && (!Truthy(audio) ==> Playback() == old(Playback()) && userState == old(userState))
      ensures view == old(view) && isTyping == old(isTyping) && isMuted == old(isMuted)
      ensures streamingText == old(streamingText)
    {
      if !HasAudio(msg) {
        var audio := RequestSpeech(msg.content, tts);
        if Truthy(audio) {
          nextStartTime := 0;
          PlayAudioBuffer(audio.data, now);
          userState := userState.(chatHistory := AttachAudio(userState.chatHistory, msg.timestamp, audio.data));
        }
        return;
      }
      nextStartTime := 0;
      PlayAudioBuffer(msg.audioBase64.value, now);
    }

    /**
     * `handleDownload`: use the stored audio, or synthesise and attach it;
     * then wrap the decoded PCM in the WAV container. Nothing is played.
     */
    method HandleDownload(msg: Message, tts: string -> TtsOutcome) returns (file: DownloadResult)
      modifies this
      ensures var audio := if HasAudio(msg) then msg.audioBase64 else AudioField(GetAuraSpeech(msg.content, tts));
        && speechCalls == old(speechCalls) + (if HasAudio(msg) then [] else [msg.content])
        && userState == (if !HasAudio(msg) && audio.Some?
                         then old(userState).(chatHistory := AttachAudio(old(userState.chatHistory), msg.timestamp, audio.value))
                         else old(userState))
        && (audio.None? ==> file == NoAudio)
        && (audio.Some? && ForgivingDecode(audio.value).None? ==> file == DecodeFailed)
        && (audio.Some? && ForgivingDecode(audio.value).Some? ==> file == WavDownload(WavFile(ForgivingDecode(audio.value).value)))
      ensures Playback() == old(Playback())
      ensures view == old(view) && isTyping == old(isTyping) && isMuted == old(isMuted)
      ensures streamingText == old(streamingText)
    {
      var audioBase64 := msg.audioBase64;
      if !HasAudio(msg) {
        var r := RequestSpeech(msg.content, tts);
        audioBase64 := AudioField(r);
        if audioBase64.Some? {
          userState := userState.(chatHistory := AttachAudio(userState.chatHistory, msg.timestamp, audioBase64.value));
        }
      }
      if audioBase64.None? || audioBase64.value == "" {
        return NoAudio;
      }
      var blob := CreateWavBlob(audioBase64.value);
      if blob.None? {
        return DecodeFailed;
      }
      file := WavDownload(blob.value[..]);
    }

    /**
     * `handleAddMood`: append one mood entry, switch to the chat, and send
     * the canned message for the score as a normal turn.
     */
    method HandleAddMood(score: int, date: string, now: int, sentAt: int, repliedAt: int,
                         chat: seq<Content> -> StreamOutcome, tts: string -> TtsOutcome, clock: nat -> nat)
      modifies this
      ensures userState.name == old(userState.name)
      ensures userState.moodHistory == old(userState.moodHistory) + [NewMoodEntry(date, score, now)]
      ensures var outcome := chat(RequestContents(MoodMessage(score), old(userState.chatHistory)));
        && userState.chatHistory == TurnHistory(old(userState.chatHistory),
             Message(User, MoodMessage(score), sentAt, None), outcome, repliedAt, tts)
        && speechCalls == old(speechCalls) + TurnCalls(outcome, isMuted)
        && Playback() == PlayAll(PlayState(0, old(scheduled)), TurnPlays(outcome, isMuted, tts), clock)
      ensures view == Chat && isMuted == old(isMuted) && !isTyping && streamingText == ""
    {
      var newEntry := NewMoodEntry(date, score, now);
      userState := userState.(moodHistory := userState.moodHistory + [newEntry]);
      view := Chat;
      HandleSendMessage(MoodMessage(score), sentAt, repliedAt, chat, tts, clock);
    }
  }
}
