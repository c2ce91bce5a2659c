/**
 * geminiService.ts without the network: how the chat request's `contents`
 * are built, the speech prompt, and how the speech result is taken out of
 * the response. The remote calls themselves are oracle parameters.
 */
module GeminiService {
  import opened Wrappers
  import opened Types

  datatype Part = Part(text: string)

  /** One `{ role, parts }` entry of a request's `contents`. */
  datatype Content = Content(role: string, parts: seq<Part>)

  /** The `history.map` callback: 'user' stays 'user', every other role becomes 'model'. */
  function ContentOf(msg: Message): (c: Content)
    ensures c.role == "user" <==> msg.role == User
    ensures c.role == "model" <==> msg.role != User
    ensures c.parts == [Part(msg.content)]
  {
    Content(if msg.role == User then "user" else "model", [Part(msg.content)])
  }

  /** The role a request entry stands for, read back. */
  function RoleOf(role: string): Role {
    if role == "user" then User else Assistant
  }

  /** `history.map(...)`: one entry per message, in history order. */
  function HistoryToContents(history: seq<Message>): (contents: seq<Content>)
    ensures |contents| == |history|
    ensures forall i | 0 <= i < |history| :: contents[i] == ContentOf(history[i])
  {
    seq(|history|, i requires 0 <= i < |history| => ContentOf(history[i]))
  }

  /** The entry `contents.push` adds for the new user message. */
  function UserTurn(userMessage: string): Content {
    Content("user", [Part(userMessage)])
  }

  /** The `contents` of the streaming request. */
  function RequestContents(userMessage: string, history: seq<Message>): seq<Content> {
    HistoryToContents(history) + [UserTurn(userMessage)]
  }

  /**
   * The request holds one entry per history message, in order, from which
   * each message's role and text can be read back, and then the new user
   * message as a 'user' entry.
   */
  lemma RequestContentsShape(userMessage: string, history: seq<Message>)
    ensures var c := RequestContents(userMessage, history);
      && |c| == |history| + 1
      && (forall i | 0 <= i < |history| ::
            RoleOf(c[i].role) == history[i].role && |c[i].parts| == 1 && c[i].parts[0].text == history[i].content)
      && c[|history|].role == "user" && c[|history|].parts == [Part(userMessage)]
  {
  }

  /** The `contents` construction in `getAuraResponseStream`: a map, then a push. */
  method BuildContents(userMessage: string, history: seq<Message>) returns (contents: seq<Content>)
    ensures contents == RequestContents(userMessage, history)
  {
    contents := HistoryToContents(history);
    contents := contents + [UserTurn(userMessage)];
  }

  /** What a streamed chunk carries: `chunk.text`, which is undefined for a chunk without text. */
  datatype Chunk = Chunk(text: Option<string>)

  /**
   * The streaming text service: either the request fails, or some chunks
   * arrive and the stream then either ends or fails (`interrupted`).
   */
  datatype StreamOutcome = RequestFailed | Streamed(chunks: seq<Chunk>, interrupted: bool)

  /** `getAuraResponseStream`: build the request and pass on whatever the service does, failures included. */
  method GetAuraResponseStream(userMessage: string, history: seq<Message>, chat: seq<Content> -> StreamOutcome)
    returns (r: StreamOutcome)
    ensures r == chat(RequestContents(userMessage, history))
  {
    var contents := BuildContents(userMessage, history);
    r := chat(contents);
  }

  // ----- Speech -----

  /** The delivery instruction prefixed to every text sent for speech synthesis. */
  const SpeechInstruction: string := "Diga de forma carinhosa e natural: "

  /** The text of the speech request. */
  function SpeechPrompt(text: string): (p: string)
    ensures |p| == |SpeechInstruction| + |text|
    ensures p[..|SpeechInstruction|] == SpeechInstruction && p[|SpeechInstruction|..] == text
  {
    SpeechInstruction + text
  }

  lemma SpeechPromptInjective(a: string, b: string)
    ensures SpeechPrompt(a) == SpeechPrompt(b) ==> a == b
  {
    if SpeechPrompt(a) == SpeechPrompt(b) {
      assert a == SpeechPrompt(a)[|SpeechInstruction|..];
    }
  }

  datatype InlineData = InlineData(data: Option<string>)
  datatype ResponsePart = ResponsePart(inlineData: Option<InlineData>)
  datatype CandidateContent = CandidateContent(parts: Option<seq<ResponsePart>>)
  datatype Candidate = Candidate(content: Option<CandidateContent>)

  /** The parts of a speech response the code looks at; every link of the chain may be missing. */
  datatype SpeechResponse = SpeechResponse(candidates: Option<seq<Candidate>>)

  /** The speech service either throws or answers. */
  datatype TtsOutcome = TtsThrew | TtsReturned(response: SpeechResponse)

  /** What `getAuraSpeech` resolves to: the audio text, `undefined`, or `null`. */
  datatype SpeechResult = Audio(data: string) | Undefined | Null

  /** The first candidate's first part carries inline data with a `data` string. */
  ghost predicate ChainPresent(r: SpeechResponse) {
    && r.candidates.Some? && |r.candidates.value| > 0
    && r.candidates.value[0].content.Some?
    && r.candidates.value[0].content.value.parts.Some?
    && |r.candidates.value[0].content.value.parts.value| > 0
    && r.candidates.value[0].content.value.parts.value[0].inlineData.Some?
    && r.candidates.value[0].content.value.parts.value[0].inlineData.value.data.Some?
  }

  /** `response.candidates?.[0]?.content?.parts?.[0]?.inlineData?.data`. */
  function ExtractAudio(r: SpeechResponse): (res: SpeechResult)
    ensures res != Null
    ensures res.Audio? <==> ChainPresent(r)
    ensures res.Audio? ==>
      res.data == r.candidates.value[0].content.value.parts.value[0].inlineData.value.data.value
  {
    match r.candidates
    case None => Undefined
    case Some(cands) =>
      if |cands| == 0 then Undefined
      else match cands[0].content
        case None => Undefined
        case Some(content) =>
          match content.parts
          case None => Undefined
          case Some(parts) =>
            if |parts| == 0 then Undefined
            else match parts[0].inlineData
              case None => Undefined
              case Some(inline) =>
                match inline.data
                case None => Undefined
                case Some(d) => Audio(d)
  }

  /**
   * `getAuraSpeech`: send the prefixed prompt; a thrown error becomes
   * `null`, otherwise the optional chain decides between audio and
   * `undefined`.
   */
  function GetAuraSpeech(text: string, tts: string -> TtsOutcome): (r: SpeechResult)
    ensures r == Null <==> tts(SpeechPrompt(text)).TtsThrew?
    ensures tts(SpeechPrompt(text)).TtsReturned? ==> r == ExtractAudio(tts(SpeechPrompt(text)).response)
  {
    match tts(SpeechPrompt(text))
    case TtsThrew => Null
    case TtsReturned(response) => ExtractAudio(response)
  }

  /** JavaScript truthiness of the result: a non-empty string. */
  predicate Truthy(r: SpeechResult) {
    r.Audio? && r.data != ""
  }

  /**
   * A synthesis result is played or stored exactly when the service
   * answered, the whole optional chain was present, and the data is not empty.
   */
  lemma TruthyMeansAnswered(text: string, tts: string -> TtsOutcome)
    ensures Truthy(GetAuraSpeech(text, tts)) <==>
      && tts(SpeechPrompt(text)).TtsReturned?
      && ChainPresent(tts(SpeechPrompt(text)).response)
      && ExtractAudio(tts(SpeechPrompt(text)).response).data != ""
  {
  }

  /** `result || undefined`, as an optional field value. */
  function AudioField(r: SpeechResult): (a: Option<string>)
    ensures a.Some? <==> Truthy(r)
    ensures a.Some? ==> a.value == r.data && a.value != ""
  {
    if Truthy(r) then Some(r.data) else None
  }
}
