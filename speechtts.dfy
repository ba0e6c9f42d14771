/**
 * The byte-level helpers of speech synthesis: turning the raw data of a
 * stream chunk into one byte buffer, and turning a chunk into base64 audio
 * by stripping the `Path:audio\r\n` header (base64 as in section 4 of
 * RFC 4648: the standard alphabet with `=` padding).
 */
module SpeechTts {
  import opened Wrappers
  import opened Text

  newtype byte = b: int | 0 <= b < 256

  /** A number below 64: one base64 digit's value. */
  type sextet = n: int | 0 <= n < 64

  /**
   * What a stream chunk may be: a `Buffer`, an `ArrayBuffer`, an array of
   * buffers, a string, or a value of some other type (named by `typeof`).
   */
  datatype RawData =
    | BufferData(bytes: seq<byte>)
    | ArrayBufferData(bytes: seq<byte>)
    | BufferList(parts: seq<seq<byte>>)
    | TextData(text: string)
    | OtherData(typeName: string)

  // ---------------------------------------------------------------------------
  // UTF-8
  // ---------------------------------------------------------------------------

  /** The UTF-8 encoding of one character (a Unicode scalar value). */
  function EncodeChar(c: char): (r: seq<byte>)
    ensures 1 <= |r| <= 4
    ensures (c as int < 0x80) <==> |r| == 1
    ensures |r| == 1 ==> r[0] as int == c as int
  {
    var n := c as int;
    if n < 0x80 then [n as byte]
    else if n < 0x800 then [(0xC0 + n / 64) as byte, (0x80 + n % 64) as byte]
    else if n < 0x10000 then [(0xE0 + n / 4096) as byte, (0x80 + n / 64 % 64) as byte, (0x80 + n % 64) as byte]
    else [(0xF0 + n / 262144) as byte, (0x80 + n / 4096 % 64) as byte, (0x80 + n / 64 % 64) as byte, (0x80 + n % 64) as byte]
  }

  /** The code point one well-formed UTF-8 sequence stands for. */
  function DecodeChar(b: seq<byte>): int
    requires 1 <= |b| <= 4
  {
    if |b| == 1 then b[0] as int
    else if |b| == 2 then (b[0] as int - 0xC0) * 64 + (b[1] as int - 0x80)
    else if |b| == 3 then (b[0] as int - 0xE0) * 4096 + (b[1] as int - 0x80) * 64 + (b[2] as int - 0x80)
    else (b[0] as int - 0xF0) * 262144 + (b[1] as int - 0x80) * 4096 + (b[2] as int - 0x80) * 64 + (b[3] as int - 0x80)
  }

  /** Each character's encoding decodes back to that character. */
  lemma EncodeCharRoundTrip(c: char)
    ensures DecodeChar(EncodeChar(c)) == c as int
  {
    var n := c as int;
    Sextets(n);
  }

  /** A code point's base-64 digits, as `EncodeChar` takes them apart. */
  lemma Sextets(n: nat)
    ensures n == n / 64 * 64 + n % 64
    ensures n == n / 4096 * 4096 + n / 64 % 64 * 64 + n % 64
    ensures n == n / 262144 * 262144 + n / 4096 % 64 * 4096 + n / 64 % 64 * 64 + n % 64
  {
    var u := n / 64;
    var v := u / 64;
    var w := v / 64;
    assert n == 64 * u + n % 64;
    assert u == 64 * v + u % 64;
    assert v == 64 * w + v % 64;
    assert n / 4096 == v;
    assert n / 262144 == w;
  }

  /** `Buffer.from(text, 'utf-8')`. */
  function Utf8(s: string): (r: seq<byte>)
    ensures |r| >= |s|
    decreases |s|
  {
    if s == [] then [] else EncodeChar(s[0]) + Utf8(s[1..])
  }

  /** Text in the ASCII range encodes to one byte per character, with the same values. */
  lemma {:induction false} Utf8Ascii(s: string)
    requires forall i :: 0 <= i < |s| ==> s[i] as int < 0x80
    ensures |Utf8(s)| == |s|
    ensures forall i :: 0 <= i < |s| ==> Utf8(s)[i] as int == s[i] as int
  {
    if s != [] {
      Utf8Ascii(s[1..]);
      assert forall i :: 1 <= i < |s| ==> Utf8(s)[i] == Utf8(s[1..])[i - 1];
    }
  }

  // ---------------------------------------------------------------------------
  // ensureBuffer
  // ---------------------------------------------------------------------------

  /** `Buffer.concat(list)`. */
  function ConcatBytes(parts: seq<seq<byte>>): seq<byte> {
    if parts == [] then [] else parts[0] + ConcatBytes(parts[1..])
  }

  /**
   * `ensureBuffer`: a buffer as it is, an `ArrayBuffer`'s bytes, the
   * buffers of a list joined in order, a string's UTF-8 bytes; any other
   * value throws "Unsupported RawData type: <typeof>".
   */
  function EnsureBuffer(data: RawData): (r: Result<seq<byte>>)
    ensures data.BufferData? || data.ArrayBufferData? ==> r == Success(data.bytes)
    ensures data.BufferList? ==> r == Success(ConcatBytes(data.parts))
    ensures data.TextData? ==> r == Success(Utf8(data.text))
    ensures data.OtherData? ==> r == Failure("Unsupported RawData type: " + data.typeName)
  {
    match data
    case BufferData(bytes) => Success(bytes)
    case ArrayBufferData(bytes) => Success(bytes)
    case BufferList(parts) => Success(ConcatBytes(parts))
    case TextData(text) => Success(Utf8(text))
    case OtherData(typeName) => Failure("Unsupported RawData type: " + typeName)
  }

  /** Joining a list of buffers loses and reorders nothing: lengths add up and a join of joins is the join. */
  lemma {:induction false} ConcatBytesAppend(a: seq<seq<byte>>, b: seq<seq<byte>>)
    ensures ConcatBytes(a + b) == ConcatBytes(a) + ConcatBytes(b)
  {
    if a == [] {
      assert a + b == b;
    } else {
      assert (a + b)[1..] == a[1..] + b;
      ConcatBytesAppend(a[1..], b);
    }
  }

  // ---------------------------------------------------------------------------
  // Base64, section 4 of RFC 4648
  // ---------------------------------------------------------------------------

  /** The base64 alphabet: `A`-`Z`, `a`-`z`, `0`-`9`, `+`, `/`. */
  function Digit(n: sextet): char {
    if n < 26 then ('A' as int + n) as char
    else if n < 52 then ('a' as int + n - 26) as char
    else if n < 62 then ('0' as int + n - 52) as char
    else if n == 62 then '+'
    else '/'
  }

  predicate IsDigit(c: char) {
    ('A' <= c <= 'Z') || ('a' <= c <= 'z') || ('0' <= c <= '9') || c == '+' || c == '/'
  }

  function DigitValue(c: char): sextet
    requires IsDigit(c)
  {
    if 'A' <= c <= 'Z' then c as int - 'A' as int
    else if 'a' <= c <= 'z' then c as int - 'a' as int + 26
    else if '0' <= c <= '9' then c as int - '0' as int + 52
    else if c == '+' then 62
    else 63
  }

  lemma DigitRoundTrip(n: sextet)
    ensures IsDigit(Digit(n)) && DigitValue(Digit(n)) == n && Digit(n) != '='
  {
  }

  /** Three bytes become four digits. */
  function EncodeGroup(b0: byte, b1: byte, b2: byte): string {
    [Digit(b0 as int / 4), Digit(b0 as int % 4 * 16 + b1 as int / 16),
     Digit(b1 as int % 16 * 4 + b2 as int / 64), Digit(b2 as int % 64)]
  }

  /** The final one or two bytes become two or three digits, padded with `=` to four. */
  function EncodeTail(b: seq<byte>): string
    requires 1 <= |b| <= 2
  {
    if |b| == 1 then [Digit(b[0] as int / 4), Digit(b[0] as int % 4 * 16), '=', '=']
    else [Digit(b[0] as int / 4), Digit(b[0] as int % 4 * 16 + b[1] as int / 16), Digit(b[1] as int % 16 * 4), '=']
  }

  /** `buffer.toString('base64')`. */
  function Base64Encode(b: seq<byte>): (r: string)
    ensures |r| == 4 * ((|b| + 2) / 3)
    decreases |b|
  {
    if |b| == 0 then ""
    else if |b| < 3 then EncodeTail(b)
    else EncodeGroup(b[0], b[1], b[2]) + Base64Encode(b[3..])
  }

  /** Four characters, the last one or two possibly `=`, become one to three bytes. */
  function DecodeGroup(s: string): seq<byte>
    requires |s| == 4 && IsDigit(s[0]) && IsDigit(s[1])
    requires s[2] != '=' ==> IsDigit(s[2])
    requires s[2] != '=' && s[3] != '=' ==> IsDigit(s[3])
  {
    var c0 := DigitValue(s[0]);
    var c1 := DigitValue(s[1]);
    var b0 := (c0 * 4 + c1 / 16) as byte;
    if s[2] == '=' then [b0]
    else
      var c2 := DigitValue(s[2]);
      var b1 := (c1 % 16 * 16 + c2 / 4) as byte;
      if s[3] == '=' then [b0, b1]
      else [b0, b1, (c2 % 4 * 64 + DigitValue(s[3])) as byte]
  }

  /** Well-formed base64: groups of four, digits except for a final `=` or `==`. */
  predicate IsBase64(s: string)
    decreases |s|
  {
    |s| % 4 == 0 &&
    (|s| == 0 ||
      (IsDigit(s[0]) && IsDigit(s[1])
       && (s[2] != '=' ==> IsDigit(s[2]))
       && (s[2] != '=' && s[3] != '=' ==> IsDigit(s[3]))
       && (s[2] == '=' ==> s[3] == '=')
       && (s[3] == '=' ==> |s| == 4)
       && IsBase64(s[4..])))
  }

  /** Base64 decoding of well-formed text. */
  function Base64Decode(s: string): seq<byte>
    requires IsBase64(s)
    decreases |s|
  {
    if |s| == 0 then [] else DecodeGroup(s[..4]) + Base64Decode(s[4..])
  }

  lemma GroupRoundTrip(b0: byte, b1: byte, b2: byte)
    ensures var s := EncodeGroup(b0, b1, b2);
      && IsDigit(s[0]) && IsDigit(s[1]) && IsDigit(s[2]) && IsDigit(s[3])
      && DecodeGroup(s) == [b0, b1, b2]
  {
    var c0: sextet := b0 as int / 4;
    var c1: sextet := b0 as int % 4 * 16 + b1 as int / 16;
    var c2: sextet := b1 as int % 16 * 4 + b2 as int / 64;
    var c3: sextet := b2 as int % 64;
    DigitRoundTrip(c0);
    DigitRoundTrip(c1);
    DigitRoundTrip(c2);
    DigitRoundTrip(c3);
    DecodeDigits(Digit(c0), Digit(c1), Digit(c2), Digit(c3));
    RegroupBits(b0 as int, b1 as int, b2 as int);
  }

  /** Four digits decode to the three bytes their 24 bits spell. */
  lemma DecodeDigits(d0: char, d1: char, d2: char, d3: char)
    requires IsDigit(d0) && IsDigit(d1) && IsDigit(d2) && IsDigit(d3)
    ensures var c0, c1, c2, c3 := DigitValue(d0), DigitValue(d1), DigitValue(d2), DigitValue(d3);
      DecodeGroup([d0, d1, d2, d3]) == [(c0 * 4 + c1 / 16) as byte, (c1 % 16 * 16 + c2 / 4) as byte, (c2 % 4 * 64 + c3) as byte]
  {
    var s := [d0, d1, d2, d3];
    assert s[0] == d0 && s[1] == d1 && s[2] == d2 && s[3] == d3;
  }

  /** Splitting three bytes into four sextets and joining them again gives the bytes back. */
  lemma RegroupBits(x: int, y: int, z: int)
    requires 0 <= x < 256 && 0 <= y < 256 && 0 <= z < 256
    ensures var c0, c1, c2, c3 := x / 4, x % 4 * 16 + y / 16, y % 16 * 4 + z / 64, z % 64;
      && c0 * 4 + c1 / 16 == x && c1 % 16 * 16 + c2 / 4 == y && c2 % 4 * 64 + c3 == z
  {
    var c1, c2 := x % 4 * 16 + y / 16, y % 16 * 4 + z / 64;
    assert c1 / 16 == x % 4 && c1 % 16 == y / 16;
    assert c2 / 4 == y % 16 && c2 % 4 == z / 64;
  }

  lemma TailRoundTrip(b: seq<byte>)
    requires 1 <= |b| <= 2
    ensures var s := EncodeTail(b);
      && IsDigit(s[0]) && IsDigit(s[1]) && s[3] == '=' && (s[2] == '=' <==> |b| == 1) && (s[2] != '=' ==> IsDigit(s[2]))
      && DecodeGroup(s) == b
  {
    if |b| == 1 {
      assert b == [b[0]];
      OneByteTail(b[0]);
    } else {
      assert b == [b[0], b[1]];
      TwoByteTail(b[0], b[1]);
    }
  }

  /** A lone final byte becomes two digits and `==`, which decode back to it. */
  lemma OneByteTail(x: byte)
    ensures var s := EncodeTail([x]);
      && IsDigit(s[0]) && IsDigit(s[1]) && s[2] == '=' && s[3] == '=' && DecodeGroup(s) == [x]
  {
    var c0: sextet := x as int / 4;
    var c1: sextet := x as int % 4 * 16;
    DigitRoundTrip(c0);
    DigitRoundTrip(c1);
    assert EncodeTail([x]) == [Digit(c0), Digit(c1), '=', '='];
    DecodeDoublePadded(Digit(c0), Digit(c1));
  }

  /** Two final bytes become three digits and `=`, which decode back to them. */
  lemma TwoByteTail(x: byte, y: byte)
    ensures var s := EncodeTail([x, y]);
      && IsDigit(s[0]) && IsDigit(s[1]) && IsDigit(s[2]) && s[2] != '=' && s[3] == '=' && DecodeGroup(s) == [x, y]
  {
    var c0: sextet := x as int / 4;
    var c1: sextet := x as int % 4 * 16 + y as int / 16;
    var c2: sextet := y as int % 16 * 4;
    DigitRoundTrip(c0);
    DigitRoundTrip(c1);
    DigitRoundTrip(c2);
    assert EncodeTail([x, y]) == [Digit(c0), Digit(c1), Digit(c2), '='];
    DecodePadded(Digit(c0), Digit(c1), Digit(c2));
    RegroupBits(x as int, y as int, 0);
  }

  /** Three digits and one `=` decode to the two bytes their first 16 bits spell. */
  lemma DecodePadded(d0: char, d1: char, d2: char)
    requires IsDigit(d0) && IsDigit(d1) && IsDigit(d2)
    ensures var c0, c1, c2 := DigitValue(d0), DigitValue(d1), DigitValue(d2);
      DecodeGroup([d0, d1, d2, '=']) == [(c0 * 4 + c1 / 16) as byte, (c1 % 16 * 16 + c2 / 4) as byte]
  {
    var s := [d0, d1, d2, '='];
    assert s[0] == d0 && s[1] == d1 && s[2] == d2 && s[3] == '=';
  }

  /** Two digits and two `=` decode to the byte their first 8 bits spell. */
  lemma DecodeDoublePadded(d0: char, d1: char)
    requires IsDigit(d0) && IsDigit(d1)
    ensures DecodeGroup([d0, d1, '=', '=']) == [(DigitValue(d0) * 4 + DigitValue(d1) / 16) as byte]
  {
    var s := [d0, d1, '=', '='];
    assert s[0] == d0 && s[1] == d1 && s[2] == '=';
  }

  /** Encoding gives well-formed base64, and decoding it gives back exactly the bytes. */
  lemma {:induction false} Base64RoundTrip(b: seq<byte>)
    ensures IsBase64(Base64Encode(b))
    ensures Base64Decode(Base64Encode(b)) == b
    decreases |b|
  {
    if |b| == 0 {
    } else if |b| < 3 {
      TailDecodes(b);
    } else {
      Base64RoundTrip(b[3..]);
      GroupStep(b);
    }
  }

  /** A first group of three bytes in front of text that round-trips keeps the round trip. */
  lemma GroupStep(b: seq<byte>)
    requires |b| >= 3
    requires IsBase64(Base64Encode(b[3..])) && Base64Decode(Base64Encode(b[3..])) == b[3..]
    ensures IsBase64(Base64Encode(b)) && Base64Decode(Base64Encode(b)) == b
  {
    var g := FirstGroup(b);
    DecodeJoined(Base64Encode(b), g, Base64Encode(b[3..]), b);
  }

  lemma DecodeJoined(s: string, g: string, rest: string, b: seq<byte>)
    requires |b| >= 3 && s == g + rest
    requires |g| == 4 && IsDigit(g[0]) && IsDigit(g[1]) && IsDigit(g[2]) && IsDigit(g[3]) && DecodeGroup(g) == b[..3]
    requires IsBase64(rest) && Base64Decode(rest) == b[3..]
    ensures IsBase64(s) && Base64Decode(s) == b
  {
    GroupThenDecodes(g, rest, b[..3]);
    assert b == b[..3] + b[3..];
  }

  /** The first four characters of the encoding: digits that decode to the first three bytes. */
  lemma FirstGroup(b: seq<byte>) returns (g: string)
    requires |b| >= 3
    ensures |g| == 4 && IsDigit(g[0]) && IsDigit(g[1]) && IsDigit(g[2]) && IsDigit(g[3])
    ensures DecodeGroup(g) == b[..3]
    ensures Base64Encode(b) == g + Base64Encode(b[3..])
  {
    g := EncodeGroup(b[0], b[1], b[2]);
    GroupRoundTrip(b[0], b[1], b[2]);
    assert b[..3] == [b[0], b[1], b[2]];
  }

  /** The padded final group is well-formed base64 on its own and decodes to the last bytes. */
  lemma TailDecodes(b: seq<byte>)
    requires 1 <= |b| <= 2
    ensures Base64Encode(b) == EncodeTail(b)
    ensures IsBase64(EncodeTail(b)) && Base64Decode(EncodeTail(b)) == b
  {
    var s := EncodeTail(b);
    TailRoundTrip(b);
    assert s[4..] == [];
    assert s[..4] == s;
    assert Base64Decode(s) == DecodeGroup(s) + Base64Decode([]);
  }

  /** A group of four digits in front of well-formed base64 decodes to its bytes, then the rest's. */
  lemma GroupThenDecodes(g: string, rest: string, bytes: seq<byte>)
    requires |g| == 4 && IsDigit(g[0]) && IsDigit(g[1]) && IsDigit(g[2]) && IsDigit(g[3])
    requires DecodeGroup(g) == bytes
    requires IsBase64(rest)
    ensures IsBase64(g + rest)
    ensures Base64Decode(g + rest) == bytes + Base64Decode(rest)
  {
    var s := g + rest;
    assert s[..4] == g;
    assert s[4..] == rest;
    assert s[0] == g[0] && s[1] == g[1] && s[2] == g[2] && s[3] == g[3];
    assert s[3] != '=';
  }

  // ---------------------------------------------------------------------------
  // processAudioChunkToBase64
  // ---------------------------------------------------------------------------

  /**
   * `Buffer.from(needle)` for the needle `Path:audio\r\n`, the text that precedes
   * the audio in a stream's first chunk: ASCII, so one byte per character.
   */
  const AudioHeader: seq<byte> := [0x50, 0x61, 0x74, 0x68, 0x3A, 0x61, 0x75, 0x64, 0x69, 0x6F, 0x0D, 0x0A]

  /** The audio bytes of a chunk: what follows the first header, or the whole chunk when there is none. */
  function AudioData(buffer: seq<byte>): (r: seq<byte>)
    ensures IndexOf(buffer, AudioHeader).Some? ==>
      r == buffer[IndexOf(buffer, AudioHeader).value + |AudioHeader|..]
    ensures IndexOf(buffer, AudioHeader).None? ==> r == buffer
  {
    match IndexOf(buffer, AudioHeader)
    case Some(headerIndex) => buffer[headerIndex + |AudioHeader|..]
    case None => buffer
  }

  /**
   * `processAudioChunkToBase64`: the base64 of the chunk's audio bytes, ""
   * when there are none; a chunk `ensureBuffer` rejects makes it throw.
   */
  function ProcessAudioChunkToBase64(data: RawData): (r: Result<string>)
    ensures EnsureBuffer(data).Failure? ==> r == Failure(EnsureBuffer(data).error)
    ensures EnsureBuffer(data).Success? ==> (
      && r.Success? && IsBase64(r.value)
      && (r.value == "" <==> AudioData(EnsureBuffer(data).value) == [])
      && Base64Decode(r.value) == AudioData(EnsureBuffer(data).value))
  {
    match EnsureBuffer(data)
    case Failure(e) => Failure(e)
    case Success(buffer) =>
      var audioData := AudioData(buffer);
      Base64RoundTrip(audioData);
      if |audioData| > 0 then Success(Base64Encode(audioData)) else Success("")
  }
}
