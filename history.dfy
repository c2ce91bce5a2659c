/**
 * The pure `setUserState` updaters of App.tsx: appending a message or a
 * mood entry, and attaching audio lazily to the messages with a given
 * timestamp.
 */
module History {
  import opened Wrappers
  import opened Types

  /** `{ ...m, audioBase64: audio }` for every message whose timestamp matches. */
  function AttachAudio(history: seq<Message>, timestamp: int, audio: string): (r: seq<Message>)
    ensures |r| == |history|
    ensures forall i | 0 <= i < |history| ::
      && r[i].role == history[i].role
      && r[i].content == history[i].content
      && r[i].timestamp == history[i].timestamp
    ensures forall i | 0 <= i < |history| ::
      r[i].audioBase64 == (if history[i].timestamp == timestamp then Some(audio) else history[i].audioBase64)
  {
    seq(|history|, i requires 0 <= i < |history| =>
      if history[i].timestamp == timestamp then history[i].(audioBase64 := Some(audio)) else history[i])
  }

  /** Attaching the same audio twice changes nothing more. */
  lemma AttachAudioIdempotent(history: seq<Message>, timestamp: int, audio: string)
    ensures AttachAudio(AttachAudio(history, timestamp, audio), timestamp, audio) == AttachAudio(history, timestamp, audio)
  {
  }

  /** Messages with another timestamp are untouched, and without a match nothing changes at all. */
  lemma AttachAudioOthersUnchanged(history: seq<Message>, timestamp: int, audio: string)
    ensures forall i | 0 <= i < |history| && history[i].timestamp != timestamp ::
      AttachAudio(history, timestamp, audio)[i] == history[i]
    ensures (forall i | 0 <= i < |history| :: history[i].timestamp != timestamp) ==>
      AttachAudio(history, timestamp, audio) == history
  {
  }

  /** Attaching distributes over appending, so it commutes with later appends of other messages. */
  lemma AttachAudioAppend(history: seq<Message>, m: Message, timestamp: int, audio: string)
    ensures AttachAudio(history + [m], timestamp, audio)
         == AttachAudio(history, timestamp, audio) + AttachAudio([m], timestamp, audio)
  {
  }

  /** The phrases indexed by `score - 1`. */
  const Feelings: seq<string> := ["muito triste", "triste", "neutro", "bem", "excelente"]

  /** `feelings[score - 1]` inside a template literal: "undefined" outside 1..5. */
  function FeelingWord(score: int): (w: string)
    ensures 1 <= score <= 5 ==> w == Feelings[score - 1]
    ensures !(1 <= score <= 5) ==> w == "undefined"
  {
    if 1 <= score <= 5 then Feelings[score - 1] else "undefined"
  }

  /** The fixed text before the feeling word. */
  const MoodPrefix: string := "Hoje estou me sentindo "

  /** The message the mood handler sends: the fixed prefix, the feeling word, and a final period. */
  function MoodMessage(score: int): (m: string)
    ensures |m| == |MoodPrefix| + |FeelingWord(score)| + 1
    ensures m[..|MoodPrefix|] == MoodPrefix
    ensures m[|MoodPrefix|..|m| - 1] == FeelingWord(score)
    ensures m[|m| - 1] == '.'
  {
    MoodPrefix + FeelingWord(score) + "."
  }

  /** Different scores in 1..5 send different messages. */
  lemma MoodMessageInjective(a: int, b: int)
    requires 1 <= a <= 5 && 1 <= b <= 5 && a != b
    ensures MoodMessage(a) != MoodMessage(b)
  {
    FeelingInitialsDistinct(a - 1, b - 1);
    MoodMessageInitial(a);
    MoodMessageInitial(b);
  }

  /** The character after the prefix is the feeling word's first letter. */
  lemma MoodMessageInitial(score: int)
    requires 1 <= score <= 5
    ensures |MoodMessage(score)| > |MoodPrefix| && MoodMessage(score)[|MoodPrefix|] == Feelings[score - 1][0]
  {
    var m, k := MoodMessage(score), |MoodPrefix|;
    assert m[k] == m[k..|m| - 1][0];
  }

  /** The five phrases start with five different letters. */
  lemma FeelingInitialsDistinct(i: nat, j: nat)
    requires i < 5 && j < 5 && i != j
    ensures Feelings[i][0] != Feelings[j][0]
  {
    var initials := ['m', 't', 'n', 'b', 'e'];
    assert forall n | 0 <= n < 5 :: Feelings[n][0] == initials[n];
  }

  /** The entry the mood handler appends (`date` and `timestamp` come from the clock). */
  function NewMoodEntry(date: string, score: int, now: int): (e: MoodEntry)
    ensures e.date == date && e.score == score && e.note.None? && e.timestamp == Some(now)
  {
    MoodEntry(date, score, None, Some(now))
  }
}
