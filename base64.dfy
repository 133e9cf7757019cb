/** A reference codec for the base64 encoding of section 4 of RFC 4648 (the
    standard alphabet, with `=` padding). It stands in for the two library codecs
    the pipeline relies on: the browser's `FileReader.readAsDataURL`, which encodes
    the leaf image, and Python's `base64.b64decode`, which decodes it again on the
    inference backend. */
module Base64 {
  import opened Wire

  type byte = x: int | 0 <= x < 256

  /** A 6-bit group. */
  type sextet = x: int | 0 <= x < 64

  /** The character that section 4 of RFC 4648 assigns to a 6-bit value. */
  function CharOf(v: sextet): (c: char)
    ensures c != '=' && c != ','
  {
    if v < 26 then ('A' as int + v) as char
    else if v < 52 then ('a' as int + (v - 26)) as char
    else if v < 62 then ('0' as int + (v - 52)) as char
    else if v == 62 then '+'
    else '/'
  }

  /** The 6-bit value of an alphabet character, `None` for any other character. */
  function ValueOf(c: char): (r: Option<sextet>)
    ensures r.Some? <==> ('A' <= c <= 'Z' || 'a' <= c <= 'z' || '0' <= c <= '9' || c == '+' || c == '/')
  {
    if 'A' <= c <= 'Z' then Some(c as int - 'A' as int)
    else if 'a' <= c <= 'z' then Some(c as int - 'a' as int + 26)
    else if '0' <= c <= '9' then Some(c as int - '0' as int + 52)
    else if c == '+' then Some(62)
    else if c == '/' then Some(63)
    else None
  }

  predicate InAlphabet(c: char) {
    ValueOf(c).Some?
  }

  lemma ValueOfCharOf(v: sextet)
    ensures ValueOf(CharOf(v)) == Some(v)
  {
  }

  /** The four characters of one complete 3-byte group. */
  function EncodeGroup(b0: byte, b1: byte, b2: byte): string {
    [CharOf(b0 / 4), CharOf((b0 % 4) * 16 + b1 / 16), CharOf((b1 % 16) * 4 + b2 / 64), CharOf(b2 % 64)]
  }

  /** The padded group of a final 1-byte or 2-byte remainder. */
  function EncodeOne(b0: byte): string {
    [CharOf(b0 / 4), CharOf((b0 % 4) * 16), '=', '=']
  }

  function EncodeTwo(b0: byte, b1: byte): string {
    [CharOf(b0 / 4), CharOf((b0 % 4) * 16 + b1 / 16), CharOf((b1 % 16) * 4), '=']
  }

  /** Standard base64 with padding: a whole number of 4-character groups, four
      characters for every three bytes begun. */
  function Encode(b: seq<byte>): (s: string)
    ensures |s| % 4 == 0
    ensures |s| == 4 * ((|b| + 2) / 3)
    decreases |b|
  {
    if |b| == 0 then ""
    else if |b| == 1 then EncodeOne(b[0])
    else if |b| == 2 then EncodeTwo(b[0], b[1])
    else
      EncodeGroup(b[0], b[1], b[2]) + Encode(b[3..])
  }

  /** The three bytes that four 6-bit values carry. */
  function Byte0(v0: sextet, v1: sextet): byte { (v0 as int) * 4 + (v1 as int) / 16 }
  function Byte1(v1: sextet, v2: sextet): byte { ((v1 as int) % 16) * 16 + (v2 as int) / 4 }
  function Byte2(v2: sextet, v3: sextet): byte { ((v2 as int) % 4) * 64 + (v3 as int) }

  /** Decodes a group of four alphabet characters into three bytes. */
  function DecodeGroup(c0: char, c1: char, c2: char, c3: char): (r: Option<seq<byte>>)
    ensures r.Some? ==> |r.value| == 3
  {
    match (ValueOf(c0), ValueOf(c1), ValueOf(c2), ValueOf(c3))
    case (Some(v0), Some(v1), Some(v2), Some(v3)) =>
      Some([Byte0(v0, v1), Byte1(v1, v2), Byte2(v2, v3)])
    case _ => None
  }

  /** Decodes the final group, which may end in one or two pad characters. */
  function DecodeFinal(c0: char, c1: char, c2: char, c3: char): (r: Option<seq<byte>>)
    ensures r.Some? ==> 1 <= |r.value| <= 3
  {
    if c2 == '=' && c3 == '=' then
      match (ValueOf(c0), ValueOf(c1))
      case (Some(v0), Some(v1)) => Some([Byte0(v0, v1)])
      case _ => None
    else if c3 == '=' then
      match (ValueOf(c0), ValueOf(c1), ValueOf(c2))
      case (Some(v0), Some(v1), Some(v2)) => Some([Byte0(v0, v1), Byte1(v1, v2)])
      case _ => None
    else
      DecodeGroup(c0, c1, c2, c3)
  }

  /** Strict decoding: the text must be whole 4-character groups of alphabet
      characters, with padding only in the last group. */
  function Decode(s: string): (r: Option<seq<byte>>)
    decreases |s|
  {
    if |s| == 0 then Some([])
    else if |s| < 4 then None
    else if |s| == 4 then DecodeFinal(s[0], s[1], s[2], s[3])
    else
      match DecodeGroup(s[0], s[1], s[2], s[3])
      case None => None
      case Some(g) =>
        match Decode(s[4..])
        case None => None
        case Some(rest) => Some(g + rest)
  }

  /** The bit arithmetic behind one group: splitting three bytes into four 6-bit
      values and joining them again gives the bytes back. */
  lemma SextetsRejoin(b0: byte, b1: byte, b2: byte)
    ensures Byte0(b0 / 4, (b0 % 4) * 16 + b1 / 16) == b0
    ensures Byte1((b0 % 4) * 16 + b1 / 16, (b1 % 16) * 4 + b2 / 64) == b1
    ensures Byte2((b1 % 16) * 4 + b2 / 64, b2 % 64) == b2
  {
    var hi0, lo0 := b0 / 4, b0 % 4;
    var hi1, lo1 := b1 / 16, b1 % 16;
    var hi2, lo2 := b2 / 64, b2 % 64;
    assert (lo0 * 16 + hi1) / 16 == lo0 && (lo0 * 16 + hi1) % 16 == hi1;
    assert (lo1 * 4 + hi2) / 4 == lo1 && (lo1 * 4 + hi2) % 4 == hi2;
  }

  lemma GroupRoundTrip(b0: byte, b1: byte, b2: byte)
    ensures var g := EncodeGroup(b0, b1, b2);
      |g| == 4 && g[3] != '=' && DecodeGroup(g[0], g[1], g[2], g[3]) == Some([b0, b1, b2])
  {
    ValueOfCharOf(b0 / 4);
    ValueOfCharOf((b0 % 4) * 16 + b1 / 16);
    ValueOfCharOf((b1 % 16) * 4 + b2 / 64);
    ValueOfCharOf(b2 % 64);
    SextetsRejoin(b0, b1, b2);
  }

  lemma {:induction false} OneByteRoundTrip(b: seq<byte>)
    requires |b| == 1
    ensures Decode(Encode(b)) == Some(b)
  {
    var v0, v1 := b[0] / 4, (b[0] % 4) * 16;
    SextetsRejoin(b[0], 0, 0);
    var x := Byte0(v0, v1);
    assert x == b[0];
    ValueOfCharOf(v0);
    ValueOfCharOf(v1);
    var s := Encode(b);
    assert s == [CharOf(v0), CharOf(v1), '=', '='];
    assert DecodeFinal(s[0], s[1], s[2], s[3]) == Some([x]);
    assert [x] == b;
  }

  lemma {:induction false} TwoBytesRoundTrip(b: seq<byte>)
    requires |b| == 2
    ensures Decode(Encode(b)) == Some(b)
  {
    var v0, v1, v2 := b[0] / 4, (b[0] % 4) * 16 + b[1] / 16, (b[1] % 16) * 4;
    var s := Encode(b);
    assert s == [CharOf(v0), CharOf(v1), CharOf(v2), '='];
    ValueOfCharOf(v0);
    ValueOfCharOf(v1);
    ValueOfCharOf(v2);
    assert s[2] != '=';
    assert Decode(s) == DecodeFinal(s[0], s[1], s[2], s[3]);
    SextetsRejoin(b[0], b[1], 0);
    assert Byte0(v0, v1) == b[0];
    assert Byte1(v1, v2) == b[1];
    assert [Byte0(v0, v1), Byte1(v1, v2)] == b;
  }

  /** A last group without padding decodes as a complete group. */
  lemma {:induction false} UnpaddedFinalGroup(g: string)
    requires |g| == 4 && g[3] != '='
    ensures Decode(g) == DecodeGroup(g[0], g[1], g[2], g[3])
  {
  }

  lemma {:induction false} EncodeThree(b: seq<byte>)
    requires |b| == 3
    ensures Encode(b) == EncodeGroup(b[0], b[1], b[2])
  {
    assert Encode(b[3..]) == "";
    assert EncodeGroup(b[0], b[1], b[2]) + "" == EncodeGroup(b[0], b[1], b[2]);
  }

  lemma {:induction false} ThreeBytesRoundTrip(b: seq<byte>)
    requires |b| == 3
    ensures Decode(Encode(b)) == Some(b)
  {
    EncodeThree(b);
    GroupRoundTrip(b[0], b[1], b[2]);
    UnpaddedFinalGroup(Encode(b));
    assert [b[0], b[1], b[2]] == b;
  }

  /** Decoding a complete group followed by more text decodes the group, then the rest. */
  lemma {:induction false} DecodeGroupThen(g: string, rest: string)
    requires |g| == 4 && |rest| > 0
    ensures Decode(g + rest) ==
      match DecodeGroup(g[0], g[1], g[2], g[3])
      case None => None
      case Some(x) =>
        match Decode(rest)
        case None => None
        case Some(y) => Some(x + y)
  {
    var s := g + rest;
    assert s[0] == g[0] && s[1] == g[1] && s[2] == g[2] && s[3] == g[3];
    assert s[4..] == rest;
  }

  lemma {:induction false} SplitAfterThree(b: seq<byte>)
    requires |b| >= 3
    ensures b == [b[0], b[1], b[2]] + b[3..]
  {
    assert b[..3] == [b[0], b[1], b[2]];
    assert b == b[..3] + b[3..];
  }

  /** One step of the round trip: a leading complete group survives when the
      rest of the text, itself not empty, does. */
  lemma {:induction false} GroupStep(b: seq<byte>)
    requires |b| > 3
    requires Decode(Encode(b[3..])) == Some(b[3..])
    ensures Decode(Encode(b)) == Some(b)
  {
    SplitAfterThree(b);
    var g := EncodeGroup(b[0], b[1], b[2]);
    var rest := Encode(b[3..]);
    assert Encode(b) == g + rest;
    GroupRoundTrip(b[0], b[1], b[2]);
    DecodeGroupThen(g, rest);
  }

  /** Decoding undoes encoding, for every byte sequence. */
  lemma {:induction false} RoundTrip(b: seq<byte>)
    ensures Decode(Encode(b)) == Some(b)
    decreases |b|
  {
    if |b| == 1 {
      OneByteRoundTrip(b);
    } else if |b| == 2 {
      TwoBytesRoundTrip(b);
    } else if |b| == 3 {
      ThreeBytesRoundTrip(b);
    } else if |b| > 3 {
      RoundTrip(b[3..]);
      GroupStep(b);
    }
  }

  /** Encoding is injective: two byte sequences with the same text are equal. */
  lemma {:induction false} EncodeInjective(a: seq<byte>, b: seq<byte>)
    requires Encode(a) == Encode(b)
    ensures a == b
  {
    RoundTrip(a);
    RoundTrip(b);
  }

  lemma GroupInAlphabet(b0: byte, b1: byte, b2: byte)
    ensures forall c | c in EncodeGroup(b0, b1, b2) :: InAlphabet(c)
  {
    ValueOfCharOf(b0 / 4);
    ValueOfCharOf((b0 % 4) * 16 + b1 / 16);
    ValueOfCharOf((b1 % 16) * 4 + b2 / 64);
    ValueOfCharOf(b2 % 64);
  }

  lemma PaddedInAlphabet(b0: byte, b1: byte)
    ensures forall c | c in EncodeOne(b0) :: InAlphabet(c) || c == '='
    ensures forall c | c in EncodeTwo(b0, b1) :: InAlphabet(c) || c == '='
  {
    ValueOfCharOf(b0 / 4);
    ValueOfCharOf((b0 % 4) * 16);
    ValueOfCharOf((b0 % 4) * 16 + b1 / 16);
    ValueOfCharOf((b1 % 16) * 4);
  }

  /** Every character of encoded text is an alphabet character or the pad `=`. */
  lemma {:induction false} EncodedTextInAlphabet(b: seq<byte>)
    ensures forall c | c in Encode(b) :: InAlphabet(c) || c == '='
    decreases |b|
  {
    if |b| >= 3 {
      EncodedTextInAlphabet(b[3..]);
      GroupInAlphabet(b[0], b[1], b[2]);
      assert Encode(b) == EncodeGroup(b[0], b[1], b[2]) + Encode(b[3..]);
    } else if |b| == 2 {
      PaddedInAlphabet(b[0], b[1]);
    } else if |b| == 1 {
      PaddedInAlphabet(b[0], 0);
    }
  }

  /** No comma ever appears in encoded text. */
  lemma {:induction false} NoCommaInEncoding(b: seq<byte>)
    ensures ',' !in Encode(b)
  {
    EncodedTextInAlphabet(b);
  }
}
