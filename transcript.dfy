/**
 * The WAV encoder of the transcription route and its error-to-text helper.
 * `encodeWAV` writes a 44-byte RIFF/WAVE header (IEEE float, mono, 32 bits
 * per sample) followed by the samples; a sample is taken as the four bytes
 * `writeFloatLE` produces for it, without modelling the float encoding.
 */
module Transcript {
  import opened Wrappers
  import opened SpeechTts

  /** The little-endian bytes of one 32-bit float sample. */
  datatype Sample = Sample(b0: byte, b1: byte, b2: byte, b3: byte) {
    function Bytes(): (r: seq<byte>)
      ensures |r| == 4
    {
      [b0, b1, b2, b3]
    }
  }

  const DefaultSampleRate: nat := 10000
  const NumChannels: nat := 1
  const BitDepth: nat := 32
  /** WAVE_FORMAT_IEEE_FLOAT. */
  const FormatTag: nat := 3
  const U32Limit: nat := 0x1_0000_0000
  const HeaderSize: nat := 44

  const Riff: seq<byte> := [0x52, 0x49, 0x46, 0x46]   // "RIFF"
  const Wave: seq<byte> := [0x57, 0x41, 0x56, 0x45]   // "WAVE"
  const Fmt: seq<byte> := [0x66, 0x6D, 0x74, 0x20]    // "fmt "
  const Data: seq<byte> := [0x64, 0x61, 0x74, 0x61]   // "data"

  // ---------------------------------------------------------------------------
  // Little-endian integers
  // ---------------------------------------------------------------------------

  /** The value of little-endian bytes. */
  function DecodeLE(b: seq<byte>): nat
    decreases |b|
  {
    if b == [] then 0 else b[0] as nat + 256 * DecodeLE(b[1..])
  }

  /** `writeUInt16LE`'s bytes for a value in range. */
  function U16LE(v: nat): (r: seq<byte>)
    requires v < 0x1_0000
    ensures |r| == 2 && DecodeLE(r) == v
  {
    var r := [(v % 256) as byte, (v / 256) as byte];
    assert r[1..][1..] == [];
    assert DecodeLE(r[1..]) == v / 256;
    r
  }

  /** Two low bytes followed by more bytes: the value of the rest counts 65536 times. */
  lemma DecodeAfterTwo(lo: seq<byte>, hi: seq<byte>)
    requires |lo| == 2
    ensures DecodeLE(lo + hi) == DecodeLE(lo) + 65536 * DecodeLE(hi)
  {
    var a, b, d := lo[0] as nat, lo[1] as nat, DecodeLE(hi);
    assert (lo + hi)[1..] == [lo[1]] + hi;
    assert ([lo[1]] + hi)[1..] == hi;
    assert DecodeLE(lo + hi) == a + 256 * (b + 256 * d);
    assert lo[1..][1..] == [];
    assert DecodeLE(lo[1..]) == b;
  }

  /** `writeUInt32LE`'s bytes for a value in range: the low half, then the high half. */
  function U32LE(v: nat): (r: seq<byte>)
    requires v < U32Limit
    ensures |r| == 4 && DecodeLE(r) == v
  {
    var r := U16LE(v % 0x1_0000) + U16LE(v / 0x1_0000);
    DecodeAfterTwo(U16LE(v % 0x1_0000), U16LE(v / 0x1_0000));
    r
  }

  // ---------------------------------------------------------------------------
  // Specification of the file
  // ---------------------------------------------------------------------------

  /** The samples' bytes, one four-byte group after another. */
  function SampleBytes(samples: seq<Sample>): (r: seq<byte>)
    ensures |r| == 4 * |samples|
    decreases |samples|
  {
    if samples == [] then [] else SampleBytes(samples[..|samples| - 1]) + samples[|samples| - 1].Bytes()
  }

  /** Every header value fits its unsigned 32-bit field (otherwise `writeUInt32LE` throws). */
  predicate InRange(n: nat, sampleRate: int) {
    4 * n + 36 < U32Limit && 0 <= sampleRate && sampleRate * 4 < U32Limit
  }

  /** The 44-byte header for `dataSize` bytes of samples at `sampleRate`: the fields `encodeWAV` writes, in order. */
  function Header(dataSize: nat, sampleRate: nat): (r: seq<byte>)
    requires dataSize + 36 < U32Limit && sampleRate * 4 < U32Limit
    ensures |r| == HeaderSize
  {
    Riff + U32LE(dataSize + 36) + Wave + Fmt + U32LE(16) + U16LE(FormatTag) + U16LE(NumChannels)
    + U32LE(sampleRate) + U32LE(sampleRate * NumChannels * (BitDepth / 8)) + U16LE(NumChannels * (BitDepth / 8))
    + U16LE(BitDepth) + Data + U32LE(dataSize)
  }

  /** `encodeWAV`: the file, or `None` when a header value is out of range and a write throws. */
  function WavFile(samples: seq<Sample>, sampleRate: Option<int>): (r: Option<seq<byte>>)
    ensures r.Some? <==> InRange(|samples|, sampleRate.GetOr(DefaultSampleRate))
  {
    var rate := sampleRate.GetOr(DefaultSampleRate);
    if InRange(|samples|, rate) then Some(Header(4 * |samples|, rate) + SampleBytes(samples)) else None
  }

  /** A prefix of a prefix of `h` is a prefix of `h`. */
  lemma Shorter(p: seq<byte>, x: seq<byte>, h: seq<byte>)
    requires |p| + |x| <= |h| && h[..|p| + |x|] == p + x
    ensures h[..|p|] == p
  {
    assert h[..|p|] == h[..|p| + |x|][..|p|];
  }

  /** The last field of a prefix of `h` sits at the prefix's end. */
  lemma FieldAt(p: seq<byte>, x: seq<byte>, h: seq<byte>)
    requires |p| + |x| <= |h| && h[..|p| + |x|] == p + x
    ensures h[|p|..|p| + |x|] == x
  {
    assert h[|p|..|p| + |x|] == h[..|p| + |x|][|p|..];
  }

  /**
   * The header layout: the four tags at offsets 0, 8, 12 and 36; at 4 the
   * file size less 8; at 16 the format chunk's size 16; at 20 format 3
   * (IEEE float); at 22 one channel; at 24 the sample rate; at 28 the byte
   * rate, four bytes per sample; at 32 the block alignment 4; at 34 32 bits
   * per sample; at 40 the data size.
   */
  lemma HeaderLayout(dataSize: nat, rate: nat)
    requires dataSize + 36 < U32Limit && rate * 4 < U32Limit
    ensures var h := Header(dataSize, rate);
      && h[0..4] == Riff && h[8..12] == Wave && h[12..16] == Fmt && h[36..40] == Data
      && DecodeLE(h[4..8]) == dataSize + 36
      && DecodeLE(h[16..20]) == 16
      && DecodeLE(h[20..22]) == 3
      && DecodeLE(h[22..24]) == 1
      && DecodeLE(h[24..28]) == rate
      && DecodeLE(h[28..32]) == rate * 4
      && DecodeLE(h[32..34]) == 4
      && DecodeLE(h[34..36]) == 32
      && DecodeLE(h[40..44]) == dataSize
  {
    var h := Header(dataSize, rate);
    var p1 := Riff;
    var p2 := p1 + U32LE(dataSize + 36);
    var p3 := p2 + Wave;
    var p4 := p3 + Fmt;
    var p5 := p4 + U32LE(16);
    var p6 := p5 + U16LE(FormatTag);
    var p7 := p6 + U16LE(NumChannels);
    var p8 := p7 + U32LE(rate);
    var p9 := p8 + U32LE(rate * 4);
    var p10 := p9 + U16LE(4);
    var p11 := p10 + U16LE(BitDepth);
    var p12 := p11 + Data;
    assert h == p12 + U32LE(dataSize);
    assert h[..44] == h;
    FieldAt(p12, U32LE(dataSize), h);
    Shorter(p12, U32LE(dataSize), h);
    FieldAt(p11, Data, h);
    Shorter(p11, Data, h);
    FieldAt(p10, U16LE(BitDepth), h);
    Shorter(p10, U16LE(BitDepth), h);
    FieldAt(p9, U16LE(4), h);
    Shorter(p9, U16LE(4), h);
    FieldAt(p8, U32LE(rate * 4), h);
    Shorter(p8, U32LE(rate * 4), h);
    FieldAt(p7, U32LE(rate), h);
    Shorter(p7, U32LE(rate), h);
    FieldAt(p6, U16LE(NumChannels), h);
    Shorter(p6, U16LE(NumChannels), h);
    FieldAt(p5, U16LE(FormatTag), h);
    Shorter(p5, U16LE(FormatTag), h);
    FieldAt(p4, U32LE(16), h);
    Shorter(p4, U32LE(16), h);
    FieldAt(p3, Fmt, h);
    Shorter(p3, Fmt, h);
    FieldAt(p2, Wave, h);
    Shorter(p2, Wave, h);
    FieldAt(p1, U32LE(dataSize + 36), h);
    Shorter(p1, U32LE(dataSize + 36), h);
    FieldAt([], Riff, h);
  }

  /** The file is 44 + 4n bytes: the header for 4n data bytes, then the samples' bytes in order. */
  lemma WavLayout(samples: seq<Sample>, sampleRate: Option<int>)
    requires WavFile(samples, sampleRate).Some?
    ensures var f := WavFile(samples, sampleRate).value;
      var n := |samples|;
      && |f| == HeaderSize + 4 * n
      && f[..HeaderSize] == Header(4 * n, sampleRate.GetOr(DefaultSampleRate))
      && f[HeaderSize..] == SampleBytes(samples)
      && DecodeLE(f[4..8]) == |f| - 8
      && DecodeLE(f[40..44]) == |f| - HeaderSize
  {
    var n := |samples|;
    var rate := sampleRate.GetOr(DefaultSampleRate);
    var f := WavFile(samples, sampleRate).value;
    var h := Header(4 * n, rate);
    assert f == h + SampleBytes(samples);
    assert DecodeLE(h[4..8]) == 4 * n + 36 && DecodeLE(h[40..44]) == 4 * n by {
      HeaderLayout(4 * n, rate);
    }
    assert f[4..8] == h[4..8];
    assert f[40..44] == h[40..44];
  }

  // ---------------------------------------------------------------------------
  // The encoder, write by write
  // ---------------------------------------------------------------------------

  function Zeros(n: nat): (r: seq<byte>)
    ensures |r| == n && forall i :: 0 <= i < n ==> r[i] == 0
  {
    seq(n, _ => 0)
  }

  /** Writing `bytes` at `offset`: those positions take the bytes, all others keep theirs. */
  method Write(buf: array<byte>, bytes: seq<byte>, offset: nat)
    requires offset + |bytes| <= buf.Length
    modifies buf
    ensures buf[..] == old(buf[..])[..offset] + bytes + old(buf[..])[offset + |bytes|..]
  {
    var k := 0;
    while k < |bytes|
      invariant 0 <= k <= |bytes|
      invariant forall j :: 0 <= j < buf.Length ==>
        buf[j] == if offset <= j < offset + k then bytes[j - offset] else old(buf[j])
    {
      buf[offset + k] := bytes[k];
      k := k + 1;
    }
    ghost var target := old(buf[..])[..offset] + bytes + old(buf[..])[offset + |bytes|..];
    assert forall j :: 0 <= j < buf.Length ==> buf[..][j] == target[j];
  }

  /** A field written right after the written part of a zero-filled buffer extends the written part. */
  lemma Append(written: seq<byte>, field: seq<byte>, rest: nat)
    requires |field| <= rest
    ensures var buf := written + Zeros(rest);
      buf[..|written|] + field + buf[|written| + |field|..] == (written + field) + Zeros(rest - |field|)
  {
    var buf := written + Zeros(rest);
    assert buf[..|written|] == written;
    assert buf[|written| + |field|..] == Zeros(rest - |field|);
  }

  /** Writes the next header field at `offset`, right after what has been written so far. */
  method Put(header: array<byte>, field: seq<byte>, offset: nat, ghost written: seq<byte>)
    requires |written| == offset && offset + |field| <= header.Length
    requires header[..] == written + Zeros(header.Length - offset)
    modifies header
    ensures header[..] == (written + field) + Zeros(header.Length - offset - |field|)
  {
    Append(written, field, header.Length - offset);
    Write(header, field, offset);
  }

  /** The `writeFloatLE` loop: a zero-filled buffer of four bytes per sample, filled in order. */
  method FillSamples(samples: seq<Sample>) returns (dataBuffer: array<byte>)
    ensures fresh(dataBuffer)
    ensures dataBuffer[..] == SampleBytes(samples)
  {
    var n := |samples|;
    dataBuffer := new byte[n * 4](_ => 0);
    var i := 0;
    while i < n
      invariant 0 <= i <= n
      invariant dataBuffer[..] == SampleBytes(samples[..i]) + Zeros(4 * (n - i))
    {
      assert samples[..i + 1][..i] == samples[..i];
      Put(dataBuffer, samples[i].Bytes(), i * 4, SampleBytes(samples[..i]));
      i := i + 1;
    }
    assert samples[..n] == samples;
  }

  /** The RIFF descriptor writes at offsets 0, 4 and 8 of a zero-filled header. */
  method WriteRiffDescriptor(header: array<byte>, dataSize: nat)
    requires header.Length == HeaderSize && header[..] == Zeros(HeaderSize)
    requires dataSize + 36 < U32Limit
    modifies header
    ensures header[..] == Riff + U32LE(dataSize + 36) + Wave + Zeros(32)
  {
    ghost var w: seq<byte> := [];
    assert header[..] == w + Zeros(HeaderSize);
    Put(header, Riff, 0, w);
    w := w + Riff;
    Put(header, U32LE(dataSize + 36), 4, w);
    w := w + U32LE(dataSize + 36);
    Put(header, Wave, 8, w);
    assert [] + Riff == Riff;
  }

  /** The writes at offsets 12 to 22: the format chunk's tag, size, format and channel count. */
  method WriteFormatTag(header: array<byte>, ghost w: seq<byte>)
    requires header.Length == HeaderSize && |w| == 12 && header[..] == w + Zeros(32)
    modifies header
    ensures header[..] == w + Fmt + U32LE(16) + U16LE(FormatTag) + U16LE(NumChannels) + Zeros(20)
  {
    Put(header, Fmt, 12, w);
    Put(header, U32LE(16), 16, w + Fmt);
    Put(header, U16LE(FormatTag), 20, w + Fmt + U32LE(16));
    Put(header, U16LE(NumChannels), 22, w + Fmt + U32LE(16) + U16LE(FormatTag));
  }

  /** The writes at offsets 24 to 34: sample rate, byte rate, block alignment and bit depth. */
  method WriteFormatRates(header: array<byte>, rate: nat, ghost w: seq<byte>)
    requires header.Length == HeaderSize && |w| == 24 && header[..] == w + Zeros(20)
    requires rate * 4 < U32Limit
    modifies header
    ensures header[..] == w + U32LE(rate) + U32LE(rate * NumChannels * (BitDepth / 8))
      + U16LE(NumChannels * (BitDepth / 8)) + U16LE(BitDepth) + Zeros(8)
  {
    Put(header, U32LE(rate), 24, w);
    var byteRate := rate * NumChannels * (BitDepth / 8);
    Put(header, U32LE(byteRate), 28, w + U32LE(rate));
    var blockAlign := NumChannels * (BitDepth / 8);
    Put(header, U16LE(blockAlign), 32, w + U32LE(rate) + U32LE(byteRate));
    Put(header, U16LE(BitDepth), 34, w + U32LE(rate) + U32LE(byteRate) + U16LE(blockAlign));
  }

  /** The data chunk's tag and size at offsets 36 and 40. */
  method WriteDataChunkHeader(header: array<byte>, dataSize: nat, ghost w: seq<byte>)
    requires header.Length == HeaderSize && |w| == 36 && header[..] == w + Zeros(8)
    requires dataSize < U32Limit
    modifies header
    ensures header[..] == w + Data + U32LE(dataSize)
  {
    Put(header, Data, 36, w);
    Put(header, U32LE(dataSize), 40, w + Data);
    assert Zeros(0) == [];
  }

  /** The header writes, at offsets 0 to 40 of a zero-filled 44-byte buffer. */
  method WriteHeader(dataSize: nat, rate: nat) returns (header: array<byte>)
    requires dataSize + 36 < U32Limit && rate * 4 < U32Limit
    ensures fresh(header)
    ensures header[..] == Header(dataSize, rate)
  {
    header := new byte[HeaderSize](_ => 0);
    WriteRiffDescriptor(header, dataSize);
    ghost var w := Riff + U32LE(dataSize + 36) + Wave;
    WriteFormatTag(header, w);
    w := w + Fmt + U32LE(16) + U16LE(FormatTag) + U16LE(NumChannels);
    WriteFormatRates(header, rate, w);
    w := w + U32LE(rate) + U32LE(rate * NumChannels * (BitDepth / 8)) + U16LE(NumChannels * (BitDepth / 8)) + U16LE(BitDepth);
    WriteDataChunkHeader(header, dataSize, w);
  }

  /**
   * `encodeWAV`: fills the data buffer sample by sample, writes the header
   * fields one after another and joins the two; `None` when a header value
   * does not fit its field.
   */
  method EncodeWav(samples: seq<Sample>, sampleRate: Option<int>) returns (wav: Option<array<byte>>)
    ensures wav.None? <==> WavFile(samples, sampleRate).None?
    ensures wav.Some? ==> fresh(wav.value) && wav.value[..] == WavFile(samples, sampleRate).value
  {
    var rate := sampleRate.GetOr(DefaultSampleRate);
    var dataBuffer := FillSamples(samples);
    if !InRange(|samples|, rate) {
      return None;
    }
    var header := WriteHeader(dataBuffer.Length, rate);
    var joined := Join(header[..], dataBuffer[..]);
    return Some(joined);
  }

  /** `Buffer.concat([a, b])`: a fresh zero-filled buffer with `a` written first, then `b`. */
  method Join(a: seq<byte>, b: seq<byte>) returns (joined: array<byte>)
    ensures fresh(joined)
    ensures joined[..] == a + b
  {
    joined := new byte[|a| + |b|](_ => 0);
    assert joined[..] == [] + Zeros(|a| + |b|);
    Put(joined, a, 0, []);
    assert [] + a == a;
    Put(joined, b, |a|, a);
    assert joined[..] == a + b + Zeros(0);
  }

  // ---------------------------------------------------------------------------
  // searchError
  // ---------------------------------------------------------------------------

  /** A thrown value: a string, an `Error` with its message, or anything else. */
  datatype Thrown = ThrownString(text: string) | ThrownError(message: string) | ThrownOther

  /** `searchError`: the text to report for a thrown value. */
  function SearchError(c: Thrown): (r: string)
    ensures c.ThrownString? ==> r == c.text
    ensures c.ThrownError? ==> r == c.message
    ensures c.ThrownOther? ==> r == "Unknown error"
  {
    match c
    case ThrownString(text) => text
    case ThrownError(message) => message
    case ThrownOther => "Unknown error"
  }
}
