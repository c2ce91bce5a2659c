/**
 * The sentence segmentation inside `handleSendMessage`: every streamed
 * chunk is appended to the full response and to an accumulator; the
 * accumulator is flushed (and, unless muted, spoken in trimmed form) as
 * soon as `/[.!?](\s|\n|$)/` matches anywhere in it and its length is
 * above 15 UTF-16 code units.
 */
module Segmenter {
  import opened Wrappers

  /** The minimum length (exclusive) an accumulator needs before it is flushed. */
  const MinLength: nat := 15

  /** ECMAScript WhiteSpace and LineTerminator: what `\s` matches and `trim` removes. */
  predicate IsJsWhitespace(c: char) {
    || c == '\t' || c == '\n' || c == '\U{0B}' || c == '\U{0C}' || c == '\r' || c == ' '
    || c == '\U{A0}' || c == '\U{1680}' || ('\U{2000}' <= c <= '\U{200A}')
    || c == '\U{2028}' || c == '\U{2029}' || c == '\U{202F}' || c == '\U{205F}'
    || c == '\U{3000}' || c == '\U{FEFF}'
  }

  predicate IsTerminal(c: char) {
    c == '.' || c == '!' || c == '?'
  }

  /**
   * `/[.!?](\s|\n|$)/.test(s)`: some '.', '!' or '?' is followed by
   * whitespace or by the end of the text. The pattern is not anchored, so
   * the terminator may sit anywhere in the text.
   */
  predicate HasSentenceEnd(s: string) {
    exists i | 0 <= i < |s| :: IsTerminal(s[i]) && (i + 1 == |s| || IsJsWhitespace(s[i + 1]))
  }

  /** A match needs a terminator somewhere, and a terminator at the very end always matches. */
  lemma SentenceEndTerminator(s: string)
    ensures HasSentenceEnd(s) ==> exists i | 0 <= i < |s| :: IsTerminal(s[i])
    ensures |s| > 0 && IsTerminal(s[|s| - 1]) ==> HasSentenceEnd(s)
  {
  }

  /** A terminator followed by whitespace matches wherever it sits, whatever follows it. */
  lemma SentenceEndUnanchored(before: string, t: char, w: char, after: string)
    requires IsTerminal(t) && IsJsWhitespace(w)
    ensures HasSentenceEnd(before + [t, w] + after)
  {
    var s := before + [t, w] + after;
    assert s[|before|] == t && s[|before| + 1] == w;
  }

  /** Text in which every terminator is followed by a character other than whitespace does not match. */
  lemma TerminatorsInsideWords(s: string)
    requires forall i | 0 <= i < |s| && IsTerminal(s[i]) :: i + 1 < |s| && !IsJsWhitespace(s[i + 1])
    ensures !HasSentenceEnd(s)
  {
  }

  /** The decimal point of "3.5 mil" is not a sentence end. */
  lemma TerminatorInsideWord()
    ensures !HasSentenceEnd("3.5 mil")
  {
    var s := "3.5 mil";
    forall i | 0 <= i < |s| ensures !IsTerminal(s[i]) || (i + 1 < |s| && !IsJsWhitespace(s[i + 1])) {
      if i == 1 {
        assert s[i + 1] == '5';
      } else {
        assert !IsTerminal(s[i]);
      }
    }
    TerminatorsInsideWords(s);
  }

  /** `s.length`: characters outside the Basic Multilingual Plane count twice in UTF-16. */
  function Utf16Length(s: string): (n: nat)
    ensures |s| <= n <= 2 * |s|
    ensures (forall i | 0 <= i < |s| :: s[i] as int < 0x1_0000) ==> n == |s|
  {
    if s == [] then 0
    else
      assert forall i | 0 <= i < |s| - 1 :: s[..|s| - 1][i] == s[i];
      Utf16Length(s[..|s| - 1]) + (if s[|s| - 1] as int >= 0x1_0000 then 2 else 1)
  }

  /** One character is one code unit inside the Basic Multilingual Plane and two outside it. */
  lemma Utf16LengthSingle(c: char)
    ensures Utf16Length([c]) == if c as int >= 0x1_0000 then 2 else 1
  {
    assert [c][..0] == [];
  }

  /** The code-unit length of a concatenation is the sum of the lengths. */
  lemma {:induction false} Utf16LengthAppend(a: string, b: string)
    ensures Utf16Length(a + b) == Utf16Length(a) + Utf16Length(b)
    decreases |b|
  {
    if b == [] {
      assert a + b == a;
    } else {
      var b' := b[..|b| - 1];
      assert (a + b)[..|a + b| - 1] == a + b';
      assert (a + b)[|a + b| - 1] == b[|b| - 1];
      Utf16LengthAppend(a, b');
    }
  }

  /** The flush condition tested after every chunk. */
  predicate Flushes(acc: string) {
    HasSentenceEnd(acc) && Utf16Length(acc) > MinLength
  }

  /**
   * Text within the Basic Multilingual Plane flushes exactly when it holds
   * a sentence end and more than 15 characters; no text of fewer than 8
   * characters ever flushes.
   */
  lemma FlushesByLength(acc: string)
    ensures (forall i | 0 <= i < |acc| :: acc[i] as int < 0x1_0000) ==> (Flushes(acc) <==> HasSentenceEnd(acc) && |acc| > MinLength)
    ensures Flushes(acc) ==> |acc| > MinLength / 2
  {
  }

  predicate IsBlank(s: string) {
    forall i | 0 <= i < |s| :: IsJsWhitespace(s[i])
  }

  /** The text without its leading whitespace. */
  function TrimStart(s: string): (r: string)
    ensures |r| <= |s| && r == s[|s| - |r|..]
    ensures forall i | 0 <= i < |s| - |r| :: IsJsWhitespace(s[i])
    ensures r == [] || !IsJsWhitespace(r[0])
  {
    if s != [] && IsJsWhitespace(s[0]) then
      var r := TrimStart(s[1..]);
      assert s[1..][|s| - 1 - |r|..] == s[|s| - |r|..];
      assert forall i | 1 <= i < |s| - |r| :: s[i] == s[1..][i - 1];
      r
    else s
  }

  /** The text without its trailing whitespace. */
  function TrimEnd(s: string): (r: string)
    ensures |r| <= |s| && r == s[..|r|]
    ensures forall i | |r| <= i < |s| :: IsJsWhitespace(s[i])
    ensures r == [] || !IsJsWhitespace(r[|r| - 1])
  {
    if s != [] && IsJsWhitespace(s[|s| - 1]) then TrimEnd(s[..|s| - 1]) else s
  }

  /**
   * `String.prototype.trim`: the text between the first and the last
   * non-whitespace character; empty exactly when the text is blank.
   */
  function Trim(s: string): (r: string)
    ensures |r| <= |s|
    ensures r == [] || (!IsJsWhitespace(r[0]) && !IsJsWhitespace(r[|r| - 1]))
    ensures r == [] <==> IsBlank(s)
  {
    var t := TrimStart(s);
    var r := TrimEnd(t);
    assert r != [] ==> r[0] == t[0];
    assert r == [] ==> IsBlank(t);
    assert IsBlank(s) ==> t == [];
    r
  }

  /**
   * The trimmed text is the slice of the input from offset `a` on, with a
   * blank prefix before it and a blank suffix after it.
   */
  lemma TrimIsSlice(s: string) returns (a: nat)
    ensures a + |Trim(s)| <= |s| && Trim(s) == s[a..a + |Trim(s)|]
    ensures IsBlank(s[..a]) && IsBlank(s[a + |Trim(s)|..])
  {
    var t := TrimStart(s);
    var r := TrimEnd(t);
    a := |s| - |t|;
    SliceBetweenBlanks(s, t, r);
  }

  /** Dropping a blank prefix and then a blank suffix leaves a slice between blanks. */
  lemma SliceBetweenBlanks(s: string, t: string, r: string)
    requires |t| <= |s| && t == s[|s| - |t|..] && forall i | 0 <= i < |s| - |t| :: IsJsWhitespace(s[i])
    requires |r| <= |t| && r == t[..|r|] && forall i | |r| <= i < |t| :: IsJsWhitespace(t[i])
    ensures r == s[|s| - |t|..|s| - |t| + |r|]
    ensures IsBlank(s[..|s| - |t|]) && IsBlank(s[|s| - |t| + |r|..])
  {
    BlankPrefix(s, |s| - |t|);
    MiddleSlice(s, t, r);
    BlankSuffixOfSuffix(s, t, r);
  }

  lemma BlankPrefix(s: string, k: nat)
    requires k <= |s| && forall i | 0 <= i < k :: IsJsWhitespace(s[i])
    ensures IsBlank(s[..k])
  {
    var prefix := s[..k];
    assert forall i | 0 <= i < k :: prefix[i] == s[i];
  }

  lemma MiddleSlice(s: string, t: string, r: string)
    requires |t| <= |s| && t == s[|s| - |t|..] && |r| <= |t| && r == t[..|r|]
    ensures r == s[|s| - |t|..|s| - |t| + |r|]
  {
    var a := |s| - |t|;
    assert forall i | 0 <= i < |r| :: r[i] == t[i] == s[a + i];
  }

  lemma BlankSuffixOfSuffix(s: string, t: string, r: string)
    requires |t| <= |s| && t == s[|s| - |t|..] && |r| <= |t|
    requires forall i | |r| <= i < |t| :: IsJsWhitespace(t[i])
    ensures IsBlank(s[|s| - |t| + |r|..])
  {
    var suffix := s[|s| - |t| + |r|..];
    assert forall i | 0 <= i < |suffix| :: suffix[i] == t[|r| + i];
  }

  /** A unit that passed the flush test is never blank, so its trimmed form is never empty. */
  lemma FlushedNotBlank(u: string)
    requires Flushes(u)
    ensures !IsBlank(u) && Trim(u) != ""
  {
    SentenceEndTerminator(u);
    var i :| 0 <= i < |u| && IsTerminal(u[i]);
    assert !IsJsWhitespace(u[i]);
  }

  /** The concatenation of a sequence of strings, in order. */
  function Concat(ss: seq<string>): string
    decreases |ss|
  {
    if ss == [] then "" else Concat(ss[..|ss| - 1]) + ss[|ss| - 1]
  }

  lemma ConcatSnoc(ss: seq<string>, s: string)
    ensures Concat(ss + [s]) == Concat(ss) + s
  {
    assert (ss + [s])[..|ss|] == ss;
  }

  /**
   * The segmenter's state: `full` is `fullResponseText`, `pending` is
   * `currentSentence`, `flushed` lists every accumulator flushed so far,
   * untrimmed, in flush order.
   */
  datatype Segmentation = Segmentation(full: string, pending: string, flushed: seq<string>)

  /** One iteration of the stream loop. */
  function Feed(st: Segmentation, chunk: string): (r: Segmentation)
    ensures r.full == st.full + chunk
    ensures Flushes(st.pending + chunk) ==> r.pending == "" && r.flushed == st.flushed + [st.pending + chunk]
    ensures !Flushes(st.pending + chunk) ==> r.pending == st.pending + chunk && r.flushed == st.flushed
  {
    var acc := st.pending + chunk;
    if Flushes(acc) then Segmentation(st.full + chunk, "", st.flushed + [acc])
    else Segmentation(st.full + chunk, acc, st.flushed)
  }

  /** The state after the given chunks, starting from empty text. */
  function Run(chunks: seq<string>): Segmentation
    decreases |chunks|
  {
    if chunks == [] then Segmentation("", "", [])
    else Feed(Run(chunks[..|chunks| - 1]), chunks[|chunks| - 1])
  }

  /** Each chunk flushes at most once, so there are never more flushes than chunks. */
  lemma {:induction false} RunFlushCount(chunks: seq<string>)
    ensures |Run(chunks).flushed| <= |chunks|
    decreases |chunks|
  {
    if chunks != [] {
      RunFlushCount(chunks[..|chunks| - 1]);
    }
  }

  lemma RunSnoc(chunks: seq<string>, c: string)
    ensures Run(chunks + [c]) == Feed(Run(chunks), c)
  {
    assert (chunks + [c])[..|chunks|] == chunks;
  }

  /** Feeding the chunk after a prefix gives the state after the longer prefix. */
  lemma RunPrefixSnoc(chunks: seq<string>, i: nat)
    requires i < |chunks|
    ensures Run(chunks[..i + 1]) == Feed(Run(chunks[..i]), chunks[i])
  {
    assert chunks[..i + 1] == chunks[..i] + [chunks[i]];
    RunSnoc(chunks[..i], chunks[i]);
  }

  lemma RunWhole(chunks: seq<string>)
    ensures Run(chunks[..|chunks|]) == Run(chunks)
  {
    assert chunks[..|chunks|] == chunks;
  }

  /** The invariant of the stream loop, as the segmenter keeps it. */
  ghost predicate Consistent(chunks: seq<string>, st: Segmentation) {
    && st.full == Concat(chunks)
    && Concat(st.flushed) + st.pending == st.full
    && (forall k | 0 <= k < |st.flushed| :: Flushes(st.flushed[k]))
    && (st.pending == "" || !Flushes(st.pending))
  }

  /**
   * After every chunk: the full text is the concatenation of the chunks,
   * and also of the flushed accumulators followed by the pending one (no
   * text lost, duplicated or reordered); every flushed accumulator passed
   * the flush test; the pending accumulator does not pass it.
   */
  lemma {:induction false} RunConsistent(chunks: seq<string>)
    ensures Consistent(chunks, Run(chunks))
    decreases |chunks|
  {
    if chunks != [] {
      var prefix, c := chunks[..|chunks| - 1], chunks[|chunks| - 1];
      assert chunks == prefix + [c];
      RunConsistent(prefix);
      RunSnoc(prefix, c);
      FeedConsistent(prefix, Run(prefix), c);
    }
  }

  /** One step of the stream loop keeps the invariant. */
  lemma FeedConsistent(chunks: seq<string>, st: Segmentation, c: string)
    requires Consistent(chunks, st)
    ensures Consistent(chunks + [c], Feed(st, c))
  {
    var r := Feed(st, c);
    ConcatSnoc(chunks, c);
    assert r.full == Concat(chunks + [c]);
    AppendAssoc(Concat(st.flushed), st.pending, c);
    if Flushes(st.pending + c) {
      ConcatSnoc(st.flushed, st.pending + c);
      AppendEmpty(Concat(r.flushed));
      assert Concat(r.flushed) + r.pending == r.full;
      forall k | 0 <= k < |r.flushed|
        ensures Flushes(r.flushed[k])
      {
        if k < |st.flushed| {
          assert r.flushed[k] == st.flushed[k];
        }
      }
    } else {
      assert Concat(r.flushed) + r.pending == r.full;
    }
  }

  /** Every flushed unit, before trimming, is longer than 15 code units and holds a sentence end. */
  lemma FlushedUnitsLong(chunks: seq<string>, k: nat)
    requires k < |Run(chunks).flushed|
    ensures Utf16Length(Run(chunks).flushed[k]) > MinLength && HasSentenceEnd(Run(chunks).flushed[k])
  {
    RunConsistent(chunks);
  }

  /** The flushed units and the trailing text together reconstruct the stream. */
  lemma ReconstructsStream(chunks: seq<string>)
    ensures Concat(Run(chunks).flushed + [Run(chunks).pending]) == Concat(chunks)
  {
    RunConsistent(chunks);
    ConcatSnoc(Run(chunks).flushed, Run(chunks).pending);
  }
}
