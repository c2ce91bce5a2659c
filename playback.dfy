/**
 * The cursor arithmetic of `playAudioBuffer`: every segment starts at
 * max(cursor, device clock) and moves the cursor to its own end. Time is
 * counted in sample ticks of the 24 kHz output context, so a segment of
 * n PCM bytes (16-bit mono) lasts n / 2 ticks.
 */
module Playback {
  import opened Wrappers
  import opened Base64

  /** A segment handed to `source.start`: the clock reading when it was handed over, its start, its length. */
  datatype Slot = Slot(requestedAt: nat, start: nat, frames: nat) {
    function End(): nat { start + frames }
  }

  /** The cursor (`nextStartTimeRef`) and every segment scheduled so far, in call order. */
  datatype PlayState = PlayState(cursor: nat, slots: seq<Slot>)

  function Max(a: nat, b: nat): (m: nat)
    ensures m >= a && m >= b && (m == a || m == b)
  {
    if a >= b then a else b
  }

  /**
   * `decodeAudioData` with one channel: an Int16Array over the bytes (which
   * throws on an odd byte length) and an AudioBuffer of that many frames
   * (which cannot be created with zero frames).
   */
  function FrameCount(pcm: seq<Byte>): (r: Option<nat>)
    ensures r.Some? <==> |pcm| > 0 && |pcm| % 2 == 0
    ensures r.Some? ==> 2 * r.value == |pcm|
  {
    if |pcm| == 0 || |pcm| % 2 == 1 then None else Some(|pcm| / 2)
  }

  /** The length in ticks of base64 audio, or None where `playAudioBuffer` throws before scheduling. */
  function AudioFrames(audio: string): (r: Option<nat>)
    ensures r.Some? <==> ForgivingDecode(audio).Some? && |ForgivingDecode(audio).value| > 0
                         && |ForgivingDecode(audio).value| % 2 == 0
    ensures r.Some? ==> 2 * r.value == |ForgivingDecode(audio).value|
  {
    match ForgivingDecode(audio)
    case None => None
    case Some(pcm) => FrameCount(pcm)
  }

  /** Audio produced by the canonical encoder of a non-empty, even number of PCM bytes lasts half as many ticks. */
  lemma AudioFramesOfEncode(pcm: seq<Byte>)
    requires |pcm| > 0 && |pcm| % 2 == 0
    ensures AudioFrames(Encode(pcm)) == Some(|pcm| / 2)
  {
    DecodeEncode(pcm);
  }

  /** Where a segment of `frames` ticks goes when handed over at `now`. */
  function Place(cursor: nat, now: nat, frames: nat): (s: Slot)
    ensures s.start >= cursor && s.start >= now
    ensures s.start == cursor || s.start == now
    ensures s.requestedAt == now && s.frames == frames
  {
    Slot(now, Max(cursor, now), frames)
  }

  /**
   * One `playAudioBuffer` call at device time `now`: the segment starts no
   * earlier than the cursor and the clock, the cursor moves to its end,
   * and audio that cannot be decoded leaves everything as it was.
   */
  function Enqueue(st: PlayState, now: nat, audio: string): (r: PlayState)
    ensures AudioFrames(audio).None? ==> r == st
    ensures AudioFrames(audio).Some? ==>
      && |r.slots| == |st.slots| + 1 && r.slots[..|st.slots|] == st.slots
      && r.slots[|st.slots|] == Place(st.cursor, now, AudioFrames(audio).value)
      && r.cursor == r.slots[|st.slots|].End()
    ensures r.cursor >= st.cursor
  {
    match AudioFrames(audio)
    case None => st
    case Some(frames) =>
      var slot := Place(st.cursor, now, frames);
      PlayState(slot.End(), st.slots + [slot])
  }

  /** Successive calls, the k-th of them at device time clock(k). */
  function PlayAll(st: PlayState, audios: seq<string>, clock: nat -> nat): PlayState
    decreases |audios|
  {
    if |audios| == 0 then st
    else Enqueue(PlayAll(st, audios[..|audios| - 1], clock), clock(|audios| - 1), audios[|audios| - 1])
  }

  lemma PlayAllSnoc(st: PlayState, audios: seq<string>, a: string, clock: nat -> nat)
    ensures PlayAll(st, audios + [a], clock) == Enqueue(PlayAll(st, audios, clock), clock(|audios|), a)
  {
    assert (audios + [a])[..|audios|] == audios;
  }

  /** The segments scheduled after `before`: ordered, gapless when the audio is ready in time, never overlapping. */
  ghost predicate Chained(before: PlayState, after: PlayState) {
    var n := |before.slots|;
    && |after.slots| >= n && after.slots[..n] == before.slots
    && after.cursor >= before.cursor
    && (forall i | n <= i < |after.slots| :: after.slots[i].start >= before.cursor)
    && (forall i | n <= i < |after.slots| :: after.slots[i].End() <= after.cursor)
    && (forall i, j | n <= i < j < |after.slots| :: after.slots[i].End() <= after.slots[j].start)
    && (forall k | n < k < |after.slots| ::
          after.slots[k].start == Max(after.slots[k - 1].End(), after.slots[k].requestedAt))
    && (|after.slots| == n ==> after.cursor == before.cursor)
    && (|after.slots| > n ==> after.cursor == after.slots[|after.slots| - 1].End())
    && (|after.slots| > n ==> after.slots[n].start == Max(before.cursor, after.slots[n].requestedAt))
  }

  /** Scheduling one more segment at the cursor keeps the segments chained. */
  lemma PlaceChained(st: PlayState, mid: PlayState, now: nat, frames: nat, r: PlayState)
    requires Chained(st, mid)
    requires r.slots == mid.slots + [Place(mid.cursor, now, frames)] && r.cursor == Place(mid.cursor, now, frames).End()
    ensures Chained(st, r)
  {
    var n, m := |st.slots|, |mid.slots|;
    assert r.slots[..m] == mid.slots;
    assert r.slots[..n] == mid.slots[..n];
    PlaceOrdered(st, mid, now, frames, r);
    PlaceAdjacent(st, mid, now, frames, r);
    PlaceBounded(st, mid, now, frames, r);
  }

  lemma PlaceOrdered(st: PlayState, mid: PlayState, now: nat, frames: nat, r: PlayState)
    requires Chained(st, mid)
    requires r.slots == mid.slots + [Place(mid.cursor, now, frames)] && r.cursor == Place(mid.cursor, now, frames).End()
    ensures forall i, j | |st.slots| <= i < j < |r.slots| :: r.slots[i].End() <= r.slots[j].start
  {
    var n, m := |st.slots|, |mid.slots|;
    forall i, j | n <= i < j < |r.slots|
      ensures r.slots[i].End() <= r.slots[j].start
    {
      assert r.slots[i] == mid.slots[i];
      if j < m {
        assert r.slots[j] == mid.slots[j];
      }
    }
  }

  lemma PlaceAdjacent(st: PlayState, mid: PlayState, now: nat, frames: nat, r: PlayState)
    requires Chained(st, mid)
    requires r.slots == mid.slots + [Place(mid.cursor, now, frames)] && r.cursor == Place(mid.cursor, now, frames).End()
    ensures forall k | |st.slots| < k < |r.slots| :: r.slots[k].start == Max(r.slots[k - 1].End(), r.slots[k].requestedAt)
  {
    var n, m := |st.slots|, |mid.slots|;
    forall k | n < k < |r.slots|
      ensures r.slots[k].start == Max(r.slots[k - 1].End(), r.slots[k].requestedAt)
    {
      assert r.slots[k - 1] == mid.slots[k - 1];
      if k < m {
        assert r.slots[k] == mid.slots[k];
      }
    }
  }

  lemma PlaceBounded(st: PlayState, mid: PlayState, now: nat, frames: nat, r: PlayState)
    requires Chained(st, mid)
    requires r.slots == mid.slots + [Place(mid.cursor, now, frames)] && r.cursor == Place(mid.cursor, now, frames).End()
    ensures forall i | |st.slots| <= i < |r.slots| :: r.slots[i].start >= st.cursor && r.slots[i].End() <= r.cursor
  {
    var n, m := |st.slots|, |mid.slots|;
    forall i | n <= i < |r.slots|
      ensures r.slots[i].start >= st.cursor && r.slots[i].End() <= r.cursor
    {
      if i < m {
        assert r.slots[i] == mid.slots[i];
      }
    }
  }

  /** One more call keeps the segments chained. */
  lemma EnqueueChained(st: PlayState, mid: PlayState, now: nat, audio: string)
    requires Chained(st, mid)
    ensures Chained(st, Enqueue(mid, now, audio))
  {
    if AudioFrames(audio).Some? {
      PlaceChained(st, mid, now, AudioFrames(audio).value, Enqueue(mid, now, audio));
    }
  }

  /**
   * Any run of `playAudioBuffer` calls schedules its segments back to back:
   * each starts at or after the end of every earlier one, exactly at the
   * previous end unless the clock has already passed it, and the cursor
   * never moves backwards.
   */
  lemma {:induction false} PlayAllChained(st: PlayState, audios: seq<string>, clock: nat -> nat)
    ensures Chained(st, PlayAll(st, audios, clock))
    decreases |audios|
  {
    if |audios| == 0 {
      assert PlayAll(st, audios, clock).slots[..|st.slots|] == st.slots;
    } else {
      PlayAllChained(st, audios[..|audios| - 1], clock);
      EnqueueChained(st, PlayAll(st, audios[..|audios| - 1], clock), clock(|audios| - 1), audios[|audios| - 1]);
    }
  }
}
