/** The records and enumerations of types.ts. */
module Types {
  import opened Wrappers

  /** `role: 'user' | 'assistant'`: exactly two cases. */
  datatype Role = User | Assistant

  /**
   * One chat turn. `audioBase64` is the only optional field; it holds the
   * base64 text of the full-turn speech and is the only field ever changed
   * after the message is appended to the history.
   */
  datatype Message = Message(role: Role, content: string, timestamp: int, audioBase64: Option<string>)

  /**
   * One mood sample. `score` is documented as 1..5 but nothing enforces it.
   * `timestamp` is the extra key the mood-entry handler adds through an
   * `as any` cast; the interface itself declares only `date`, `score` and `note`.
   */
  datatype MoodEntry = MoodEntry(date: string, score: int, note: Option<string>, timestamp: Option<int>)

  /** The persisted aggregate: exactly a name, the mood history and the chat history. */
  datatype UserState = UserState(name: string, moodHistory: seq<MoodEntry>, chatHistory: seq<Message>)

  /** The four screens of the application. */
  datatype View = Dashboard | Chat | Mood | Exercise

  /** The state used when nothing was saved before. */
  function InitialUserState(): (u: UserState)
    ensures u.name == "Amiga" && u.moodHistory == [] && u.chatHistory == []
  {
    UserState("Amiga", [], [])
  }

  /** The header title of each screen. */
  function ViewTitle(v: View): (title: string)
    ensures title != ""
    ensures v == Dashboard <==> title == "Sua Jornada"
    ensures v == Chat <==> title == "Conversar com Aura"
    ensures v == Mood <==> title == "Seu Humor"
    ensures v == Exercise <==> title == "Respiração Consciente"
  {
    match v
    case Dashboard => "Sua Jornada"
    case Chat => "Conversar com Aura"
    case Mood => "Seu Humor"
    case Exercise => "Respiração Consciente"
  }

  /** Distinct screens have distinct titles, so the title identifies the screen. */
  lemma ViewTitleInjective(v: View, w: View)
    ensures ViewTitle(v) == ViewTitle(w) ==> v == w
  {
  }
}
