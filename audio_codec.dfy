/**
 * The audio byte utilities of App.tsx: `decodeBase64` (base64 text to PCM
 * bytes) and `createWavBlob` (PCM bytes behind a 44-byte RIFF/WAVE header,
 * PCM format, mono, 24000 Hz, 16-bit, little-endian).
 */
module AudioCodec {
  import opened Wrappers
  import opened Base64

  /** Storing a number into a Uint8Array element keeps its low 8 bits (ToUint8). */
  function ToUint8(x: int): (b: Byte)
    ensures 0 <= x < 256 ==> b == x
  {
    x % 256
  }

  /**
   * `decodeBase64`: `atob`, then one byte per character of the binary
   * string. None stands for the exception `atob` throws on malformed text.
   */
  method DecodeBase64(base64: string) returns (r: Option<array<Byte>>)
    ensures r.Some? <==> Atob(base64).Some?
    ensures r.Some? ==> (r.value.Length == |Atob(base64).value|
      && forall i | 0 <= i < r.value.Length :: r.value[i] == Atob(base64).value[i] as int)
    ensures r.Some? ==> Some(r.value[..]) == ForgivingDecode(base64)
  {
    var decoded := Atob(base64);
    if decoded.None? {
      return None;
    }
    var binaryString := decoded.value;
    var len := |binaryString|;
    var bytes := new Byte[len];
    for i := 0 to len
      invariant forall j | 0 <= j < i :: bytes[j] == binaryString[j] as int
    {
      bytes[i] := ToUint8(binaryString[i] as int);
    }
    assert bytes[..] == ForgivingDecode(base64).value;
    return Some(bytes);
  }

  // ----- The WAV container -----

  const SampleRate: nat := 24000
  const NumChannels: nat := 1
  const BitsPerSample: nat := 16
  const BlockAlign: nat := (NumChannels * BitsPerSample) / 8
  const ByteRate: nat := SampleRate * BlockAlign
  const HeaderSize: nat := 44
  const Two32: nat := 0x1_0000_0000

  /** A 16-bit field, little-endian, as `DataView.setUint16(_, v, true)` writes it. */
  function LE16(v: nat): (r: seq<Byte>)
    ensures |r| == 2
  {
    [v % 256, (v / 256) % 256]
  }

  /** A 32-bit field, little-endian; values of 2^32 and above wrap, as ToUint32 does. */
  function LE32(v: nat): (r: seq<Byte>)
    ensures |r| == 4
  {
    [v % 256, (v / 0x100) % 256, (v / 0x1_0000) % 256, (v / 0x100_0000) % 256]
  }

  predicate IsAscii(s: string) {
    forall i | 0 <= i < |s| :: s[i] as int < 128
  }

  /** The bytes `writeString` stores: one character code per byte. */
  function Ascii(s: string): (r: seq<Byte>)
    requires IsAscii(s)
    ensures |r| == |s| && forall i | 0 <= i < |s| :: r[i] == s[i] as int
  {
    seq(|s|, i requires 0 <= i < |s| => s[i] as int)
  }

  /** Header bytes 0..15: the RIFF chunk descriptor and the "fmt " tag. */
  function RiffPart(dataSize: nat): (h: seq<Byte>)
    ensures |h| == 16
  {
    Ascii("RIFF") + LE32(36 + dataSize) + Ascii("WAVE") + Ascii("fmt ")
  }

  /** Header bytes 16..35: the format sub-chunk (size 16, PCM tag 1, mono, 24000 Hz, 16-bit). */
  function FormatPart(): (h: seq<Byte>)
    ensures |h| == 20
  {
    LE32(16) + LE16(1) + LE16(NumChannels) + LE32(SampleRate) + LE32(ByteRate) + LE16(BlockAlign) + LE16(BitsPerSample)
  }

  /** Header bytes 36..43: the data sub-chunk tag and length. */
  function DataPart(dataSize: nat): (h: seq<Byte>)
    ensures |h| == 8
  {
    Ascii("data") + LE32(dataSize)
  }

  /** The 44 header bytes for `dataSize` bytes of PCM, in the order `createWavBlob` writes them. */
  function WavHeader(dataSize: nat): (h: seq<Byte>)
    ensures |h| == HeaderSize
    ensures h[0..4] == Ascii("RIFF") && h[8..12] == Ascii("WAVE") && h[12..16] == Ascii("fmt ")
    ensures h[36..40] == Ascii("data")
  {
    var r, d := RiffPart(dataSize), DataPart(dataSize);
    var h := r + FormatPart() + d;
    assert h[0..4] == r[0..4] && h[8..12] == r[8..12] && h[12..16] == r[12..16] && h[36..40] == d[0..4];
    h
  }

  /** The bytes of the blob `createWavBlob` returns. */
  function WavFile(pcm: seq<Byte>): (f: seq<Byte>)
    ensures |f| == HeaderSize + |pcm|
  {
    WavHeader(|pcm|) + pcm
  }

  // ----- A reader for the header: the partner of WavFile -----

  function ReadLE16(f: seq<Byte>, off: nat): nat
    requires off + 2 <= |f|
  {
    f[off] as int + 0x100 * (f[off + 1] as int)
  }

  function ReadLE32(f: seq<Byte>, off: nat): nat
    requires off + 4 <= |f|
  {
    f[off] as int + 0x100 * (f[off + 1] as int) + 0x1_0000 * (f[off + 2] as int) + 0x100_0000 * (f[off + 3] as int)
  }

  /** The fields a RIFF/WAVE reader takes from a canonical 44-byte header. */
  datatype WavInfo = WavInfo(
    riffSize: nat, formatSize: nat, audioFormat: nat, channels: nat, sampleRate: nat, byteRate: nat,
    blockAlign: nat, bitsPerSample: nat, dataSize: nat, data: seq<Byte>)

  function ParseWav(f: seq<Byte>): Option<WavInfo> {
    if |f| < HeaderSize || f[0..4] != Ascii("RIFF") || f[8..12] != Ascii("WAVE")
       || f[12..16] != Ascii("fmt ") || f[36..40] != Ascii("data") then None
    else Some(WavInfo(ReadLE32(f, 4), ReadLE32(f, 16), ReadLE16(f, 20), ReadLE16(f, 22), ReadLE32(f, 24), ReadLE32(f, 28),
                      ReadLE16(f, 32), ReadLE16(f, 34), ReadLE32(f, 40), f[HeaderSize..]))
  }

  lemma ReadLE16OfLE16(v: nat)
    requires v < 0x1_0000
    ensures ReadLE16(LE16(v), 0) == v
  {
  }

  /** Division with a known quotient and remainder. */
  lemma DivModUnique(v: nat, d: nat, q: nat, r: nat)
    requires 0 <= r < d && v == d * q + r
    ensures v / d == q && v % d == r
  {
    var q', r' := v / d, v % d;
    assert v == d * q' + r';
    if q < q' {
      MulNext(d, q, q');
    } else if q' < q {
      MulNext(d, q', q);
    }
  }

  lemma {:induction false} MulNext(d: nat, a: nat, b: nat)
    requires a < b
    ensures d * a + d <= d * b
    decreases b - a
  {
    if a + 1 < b {
      MulNext(d, a, b - 1);
    }
    assert d * b == d * (b - 1) + d;
  }

  /** Reading back a 32-bit field gives the value modulo 2^32. */
  lemma ReadLE32OfLE32(v: nat)
    ensures ReadLE32(LE32(v), 0) == v % Two32
  {
    var b0, q1 := v % 0x100, v / 0x100;
    var b1, q2 := q1 % 0x100, q1 / 0x100;
    var b2, q3 := q2 % 0x100, q2 / 0x100;
    var b3, q4 := q3 % 0x100, q3 / 0x100;
    DivModUnique(v, 0x1_0000, q2, 0x100 * b1 + b0);
    DivModUnique(v, 0x100_0000, q3, 0x1_0000 * b2 + 0x100 * b1 + b0);
    DivModUnique(v, Two32, q4, b0 + 0x100 * b1 + 0x1_0000 * b2 + 0x100_0000 * b3);
  }

  /**
   * The reader recovers every field the writer put in, including the
   * payload unchanged; the two size fields carry 36 + |pcm| and |pcm|
   * modulo 2^32.
   */
  lemma ParseWavFile(pcm: seq<Byte>)
    ensures ParseWav(WavFile(pcm)) == Some(WavInfo(
      (36 + |pcm|) % Two32, 16, 1, NumChannels, SampleRate, ByteRate, BlockAlign, BitsPerSample,
      |pcm| % Two32, pcm))
  {
    var f := WavFile(pcm);
    var n := |pcm|;
    var r, m, d := RiffPart(n), FormatPart(), DataPart(n);
    assert f == r + m + d + pcm;
    assert f[..16] == r && f[16..36] == m && f[36..44] == d && f[HeaderSize..] == pcm;
    RiffFields(n, f);
    FormatFields(f);
    DataFields(n, f);
  }

  lemma RiffFields(n: nat, f: seq<Byte>)
    requires |f| >= 16 && f[..16] == RiffPart(n)
    ensures f[0..4] == Ascii("RIFF") && f[8..12] == Ascii("WAVE") && f[12..16] == Ascii("fmt ")
    ensures ReadLE32(f, 4) == (36 + n) % Two32
  {
    var r := RiffPart(n);
    assert r[0..4] == Ascii("RIFF") && r[4..8] == LE32(36 + n) && r[8..12] == Ascii("WAVE") && r[12..16] == Ascii("fmt ");
    assert f[0..4] == r[0..4] && f[4..8] == r[4..8] && f[8..12] == r[8..12] && f[12..16] == r[12..16];
    ReadLE32OfLE32(36 + n);
    assert ReadLE32(f, 4) == ReadLE32(LE32(36 + n), 0);
  }

  lemma FormatFields(f: seq<Byte>)
    requires |f| >= 36 && f[16..36] == FormatPart()
    ensures ReadLE32(f, 16) == 16
    ensures ReadLE16(f, 20) == 1 && ReadLE16(f, 22) == NumChannels && ReadLE32(f, 24) == SampleRate
    ensures ReadLE32(f, 28) == ByteRate && ReadLE16(f, 32) == BlockAlign && ReadLE16(f, 34) == BitsPerSample
  {
    var m := FormatPart();
    FormatPartLayout();
    ReadLE32At(f, 16, m, 0, 16);
    ReadLE16At(f, 16, m, 4, 1);
    ReadLE16At(f, 16, m, 6, NumChannels);
    ReadLE32At(f, 16, m, 8, SampleRate);
    ReadLE32At(f, 16, m, 12, ByteRate);
    ReadLE16At(f, 16, m, 16, BlockAlign);
    ReadLE16At(f, 16, m, 18, BitsPerSample);
  }

  /** Where each field of the format sub-chunk sits. */
  lemma FormatPartLayout()
    ensures var m := FormatPart();
      m[0..4] == LE32(16) && m[4..6] == LE16(1) && m[6..8] == LE16(NumChannels) && m[8..12] == LE32(SampleRate)
      && m[12..16] == LE32(ByteRate) && m[16..18] == LE16(BlockAlign) && m[18..20] == LE16(BitsPerSample)
  {
    var a := LE32(16) + LE16(1) + LE16(NumChannels) + LE32(SampleRate);
    var m := a + LE32(ByteRate) + LE16(BlockAlign) + LE16(BitsPerSample);
    assert m[0..4] == a[0..4] && m[4..6] == a[4..6] && m[6..8] == a[6..8] && m[8..12] == a[8..12];
  }

  /** A 16-bit field at offset `off` of bytes `m` stored from `base` reads back as its value. */
  lemma ReadLE16At(f: seq<Byte>, base: nat, m: seq<Byte>, off: nat, v: nat)
    requires base + |m| <= |f| && f[base..base + |m|] == m
    requires off + 2 <= |m| && m[off..off + 2] == LE16(v) && v < 0x1_0000
    ensures ReadLE16(f, base + off) == v
  {
    ReadLE16OfLE16(v);
    assert f[base + off] == m[off] == LE16(v)[0];
    assert f[base + off + 1] == m[off + 1] == LE16(v)[1];
  }

  /** A 32-bit field at offset `off` of bytes `m` stored from `base` reads back as its value. */
  lemma ReadLE32At(f: seq<Byte>, base: nat, m: seq<Byte>, off: nat, v: nat)
    requires base + |m| <= |f| && f[base..base + |m|] == m
    requires off + 4 <= |m| && m[off..off + 4] == LE32(v) && v < Two32
    ensures ReadLE32(f, base + off) == v
  {
    ReadLE32OfLE32(v);
    ModSmall(v);
    assert f[base + off] == m[off] == LE32(v)[0];
    assert f[base + off + 1] == m[off + 1] == LE32(v)[1];
    assert f[base + off + 2] == m[off + 2] == LE32(v)[2];
    assert f[base + off + 3] == m[off + 3] == LE32(v)[3];
  }

  lemma DataFields(n: nat, f: seq<Byte>)
    requires |f| >= 44 && f[36..44] == DataPart(n)
    ensures f[36..40] == Ascii("data") && ReadLE32(f, 40) == n % Two32
  {
    var d := DataPart(n);
    assert d[0..4] == Ascii("data") && d[4..8] == LE32(n);
    assert f[36..40] == d[0..4] && f[40..44] == d[4..8];
    ReadLE32OfLE32(n);
    assert ReadLE32(f, 40) == ReadLE32(LE32(n), 0);
  }

  /**
   * When the sizes fit in 32 bits, the declared RIFF size is the file
   * length minus 8 and the declared data length is the payload length.
   */
  lemma WavFileSizes(pcm: seq<Byte>)
    requires |pcm| + 36 < Two32
    ensures ParseWav(WavFile(pcm)) == Some(WavInfo(
      |WavFile(pcm)| - 8, 16, 1, NumChannels, SampleRate, ByteRate, BlockAlign, BitsPerSample, |pcm|, pcm))
  {
    ParseWavFile(pcm);
    ModSmall(36 + |pcm|);
    ModSmall(|pcm|);
  }

  lemma ModSmall(x: nat)
    requires x < Two32
    ensures x % Two32 == x
  {
  }

  // ----- createWavBlob: the header and payload written into one buffer -----

  /** `now` is `before` with `bytes` stored from `offset` on and nothing else changed. */
  ghost predicate Written(now: seq<Byte>, before: seq<Byte>, offset: nat, bytes: seq<Byte>) {
    |now| == |before| && offset + |bytes| <= |now|
    && forall j | 0 <= j < |now| :: now[j] == (if offset <= j < offset + |bytes| then bytes[j - offset] else before[j])
  }

  /** A write right after a written prefix extends that prefix. */
  lemma WrittenExtends(now: seq<Byte>, before: seq<Byte>, offset: nat, bytes: seq<Byte>, prefix: seq<Byte>)
    requires Written(now, before, offset, bytes)
    requires |prefix| == offset && before[..offset] == prefix
    ensures now[..offset + |bytes|] == prefix + bytes
  {
    assert forall j | 0 <= j < offset :: now[j] == before[j];
  }

  /** The `writeString` helper: one `setUint8` per character code. */
  method WriteString(view: array<Byte>, offset: nat, str: string)
    requires IsAscii(str) && offset + |str| <= view.Length
    modifies view
    ensures Written(view[..], old(view[..]), offset, Ascii(str))
  {
    for i := 0 to |str|
      invariant forall j | 0 <= j < view.Length ::
        view[j] == (if offset <= j < offset + i then str[j - offset] as int else old(view[j]))
    {
      view[offset + i] := ToUint8(str[i] as int);
    }
  }

  /** `DataView.setUint16(offset, v, true)`. */
  method SetUint16(view: array<Byte>, offset: nat, v: nat)
    requires offset + 2 <= view.Length
    modifies view
    ensures Written(view[..], old(view[..]), offset, LE16(v))
  {
    view[offset] := v % 256;
    view[offset + 1] := (v / 256) % 256;
  }

  /** `DataView.setUint32(offset, v, true)`. */
  method SetUint32(view: array<Byte>, offset: nat, v: nat)
    requires offset + 4 <= view.Length
    modifies view
    ensures Written(view[..], old(view[..]), offset, LE32(v))
  {
    view[offset] := v % 256;
    view[offset + 1] := (v / 0x100) % 256;
    view[offset + 2] := (v / 0x1_0000) % 256;
    view[offset + 3] := (v / 0x100_0000) % 256;
  }

  /** `new Uint8Array(buffer, offset).set(src)`: copy `src` into the buffer from `offset` on. */
  method SetBytes(view: array<Byte>, offset: nat, src: array<Byte>)
    requires src != view && offset + src.Length <= view.Length
    modifies view
    ensures Written(view[..], old(view[..]), offset, src[..])
  {
    for i := 0 to src.Length
      invariant forall j | 0 <= j < view.Length ::
        view[j] == (if offset <= j < offset + i then src[j - offset] else old(view[j]))
    {
      view[offset + i] := src[i];
    }
  }

  /** Bytes 0..15 of the header: `RIFF`, the chunk size 36 + dataSize, `WAVE`, `fmt `. */
  method WriteRiffPart(view: array<Byte>, dataSize: nat)
    requires HeaderSize <= view.Length
    modifies view
    ensures view[..16] == RiffPart(dataSize) && view[16..] == old(view[16..])
  {
    ghost var before := view[..];
    WriteString(view, 0, "RIFF");
    WrittenExtends(view[..], before, 0, Ascii("RIFF"), []);
    ghost var done := Ascii("RIFF");
    before := view[..];
    SetUint32(view, 4, 36 + dataSize);
    WrittenExtends(view[..], before, 4, LE32(36 + dataSize), done);
    done, before := done + LE32(36 + dataSize), view[..];
    WriteString(view, 8, "WAVE");
    WrittenExtends(view[..], before, 8, Ascii("WAVE"), done);
    done, before := done + Ascii("WAVE"), view[..];
    WriteString(view, 12, "fmt ");
    WrittenExtends(view[..], before, 12, Ascii("fmt "), done);
  }

  /** Bytes 16..35: sub-chunk size 16, format 1, channels, rate, byte rate, block align, bits. */
  method WriteFormatPart(view: array<Byte>)
    requires HeaderSize <= view.Length
    modifies view
    ensures view[..16] == old(view[..16]) && view[16..36] == FormatPart() && view[36..] == old(view[36..])
  {
    ghost var start := view[..];
    ghost var before := view[..];
    ghost var done := view[..16];
    SetUint32(view, 16, 16);
    WrittenExtends(view[..], before, 16, LE32(16), done);
    done, before := done + LE32(16), view[..];
    SetUint16(view, 20, 1);
    WrittenExtends(view[..], before, 20, LE16(1), done);
    done, before := done + LE16(1), view[..];
    SetUint16(view, 22, NumChannels);
    WrittenExtends(view[..], before, 22, LE16(NumChannels), done);
    done, before := done + LE16(NumChannels), view[..];
    SetUint32(view, 24, SampleRate);
    WrittenExtends(view[..], before, 24, LE32(SampleRate), done);
    done, before := done + LE32(SampleRate), view[..];
    SetUint32(view, 28, ByteRate);
    WrittenExtends(view[..], before, 28, LE32(ByteRate), done);
    done, before := done + LE32(ByteRate), view[..];
    SetUint16(view, 32, BlockAlign);
    WrittenExtends(view[..], before, 32, LE16(BlockAlign), done);
    done, before := done + LE16(BlockAlign), view[..];
    SetUint16(view, 34, BitsPerSample);
    WrittenExtends(view[..], before, 34, LE16(BitsPerSample), done);
    done := done + LE16(BitsPerSample);
    assert view[..36] == start[..16] + FormatPart();
    assert view[36..] == start[36..];
  }

  /** Bytes 36..43: `data` and the payload length. */
  method WriteDataPart(view: array<Byte>, dataSize: nat)
    requires HeaderSize <= view.Length
    modifies view
    ensures view[..36] == old(view[..36]) && view[36..44] == DataPart(dataSize) && view[44..] == old(view[44..])
  {
    ghost var start := view[..];
    ghost var before := view[..];
    ghost var done := view[..36];
    WriteString(view, 36, "data");
    WrittenExtends(view[..], before, 36, Ascii("data"), done);
    done, before := done + Ascii("data"), view[..];
    SetUint32(view, 40, dataSize);
    WrittenExtends(view[..], before, 40, LE32(dataSize), done);
    assert view[..44] == start[..36] + DataPart(dataSize);
  }

  /** Bytes 0..43: the whole header, part by part. */
  method WriteHeader(view: array<Byte>, dataSize: nat)
    requires HeaderSize <= view.Length
    modifies view
    ensures view[..HeaderSize] == WavHeader(dataSize)
    ensures view[HeaderSize..] == old(view[HeaderSize..])
  {
    ghost var tail := view[HeaderSize..];
    WriteRiffPart(view, dataSize);
    assert view[HeaderSize..] == view[16..][HeaderSize - 16..];
    ghost var riff := view[..16];
    WriteFormatPart(view);
    assert view[..16] == riff;
    assert view[HeaderSize..] == view[36..][HeaderSize - 36..];
    ghost var format := view[16..36];
    WriteDataPart(view, dataSize);
    assert view[..16] == riff && view[16..36] == format;
    assert view[..HeaderSize] == view[..16] + view[16..36] + view[36..HeaderSize];
    assert view[HeaderSize..] == tail;
  }

  /**
   * `createWavBlob`: decode the base64 text and write header and PCM into a
   * buffer of 44 + dataSize bytes. None stands for the exception the decoder
   * throws on malformed text.
   */
  method CreateWavBlob(base64Data: string) returns (blob: Option<array<Byte>>)
    ensures blob.Some? <==> ForgivingDecode(base64Data).Some?
    ensures blob.Some? ==> blob.value[..] == WavFile(ForgivingDecode(base64Data).value)
  {
    var decoded := DecodeBase64(base64Data);
    if decoded.None? {
      return None;
    }
    var pcmData := decoded.value;
    var dataSize := pcmData.Length;
    var view := new Byte[HeaderSize + dataSize](_ => 0);
    WriteHeader(view, dataSize);
    ghost var before := view[..];
    SetBytes(view, HeaderSize, pcmData);
    WrittenExtends(view[..], before, HeaderSize, pcmData[..], WavHeader(dataSize));
    assert view[..] == view[..HeaderSize + dataSize];
    return Some(view);
  }
}
