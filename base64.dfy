/** The standard base64 encoding with padding of section 4 of RFC 4648, as Go's
    `base64.StdEncoding` applies it: EncodeToString, and DecodeString, which skips
    carriage returns and line feeds, requires the padding, and ignores the unused
    low bits of the last character before the padding. */
module Base64 {

  import opened Wrappers

  type byte = b: int | 0 <= b < 256

  /** A six-bit value, the payload of one base64 character. */
  type sextet = v: int | 0 <= v < 64

  type Bytes = seq<byte>

  /** The padding character '='. */
  const Pad: byte := 61
  const CR: byte := 13
  const LF: byte := 10

  /** The character of the alphabet for value `v`: A-Z, a-z, 0-9, '+', '/'. */
  function Char(v: sextet): (c: byte)
    ensures c != Pad && c != CR && c != LF
  {
    if v < 26 then 65 + v
    else if v < 52 then 97 + (v - 26)
    else if v < 62 then 48 + (v - 52)
    else if v == 62 then 43
    else 47
  }

  /** The value of an alphabet character, None for any other byte. */
  function Value(c: byte): (r: Option<sextet>)
    ensures r.Some? ==> Char(r.value) == c
  {
    if 65 <= c <= 90 then Some(c - 65)
    else if 97 <= c <= 122 then Some(c - 97 + 26)
    else if 48 <= c <= 57 then Some(c - 48 + 52)
    else if c == 43 then Some(62)
    else if c == 47 then Some(63)
    else None
  }

  lemma ValueOfChar(v: sextet)
    ensures Value(Char(v)) == Some(v)
  {
  }

  /** The four characters of three bytes. */
  function EncodeGroup(b0: byte, b1: byte, b2: byte): Bytes
  {
    [Char(b0 / 4), Char((b0 % 4) * 16 + b1 / 16), Char((b1 % 16) * 4 + b2 / 64), Char(b2 % 64)]
  }

  /** EncodeToString: each group of three bytes becomes four characters; a final
      group of one or two bytes is padded with "==" or "=". */
  function Encode(b: Bytes): (s: Bytes)
    ensures |s| == 4 * ((|b| + 2) / 3)
    decreases |b|
  {
    if |b| == 0 then []
    else if |b| == 1 then [Char(b[0] / 4), Char((b[0] % 4) * 16), Pad, Pad]
    else if |b| == 2 then [Char(b[0] / 4), Char((b[0] % 4) * 16 + b[1] / 16), Char((b[1] % 16) * 4), Pad]
    else EncodeGroup(b[0], b[1], b[2]) + Encode(b[3..])
  }

  /** The input without its carriage returns and line feeds, which the decoder
      skips wherever they occur. */
  function StripNewlines(s: Bytes): (r: Bytes)
    ensures CR !in r && LF !in r
    ensures CR !in s && LF !in s ==> r == s
    decreases |s|
  {
    if s == [] then []
    else (if s[0] == CR || s[0] == LF then [] else [s[0]]) + StripNewlines(s[1..])
  }

  /** The first byte of a quantum: the six bits of `v0` and the top two of `v1`. */
  function Byte0(v0: sextet, v1: sextet): byte
  {
    v0 * 4 + v1 / 16
  }

  /** The second byte: the low four bits of `v1` and the top four of `v2`. */
  function Byte1(v1: sextet, v2: sextet): byte
  {
    (v1 % 16) * 16 + v2 / 4
  }

  /** The third byte: the low two bits of `v2` and the six of `v3`. */
  function Byte2(v2: sextet, v3: sextet): byte
  {
    (v2 % 4) * 64 + v3
  }

  /** The bytes of one four-character quantum. Padding ("xx==" or "xxx=") is
      accepted only in the last quantum; anything else not in the alphabet is
      corrupt input. */
  function DecodeQuantum(q: Bytes, last: bool): (r: Option<Bytes>)
    requires |q| == 4
    ensures r.Some? ==> 1 <= |r.value| <= 3
    ensures r.Some? && |r.value| < 3 ==> last && q[3] == Pad
  {
    var v0, v1, v2, v3 := Value(q[0]), Value(q[1]), Value(q[2]), Value(q[3]);
    if v0.None? || v1.None? then None
    else if v2.Some? && v3.Some? then
      Some([Byte0(v0.value, v1.value), Byte1(v1.value, v2.value), Byte2(v2.value, v3.value)])
    else if v2.Some? && q[3] == Pad && last then
      Some([Byte0(v0.value, v1.value), Byte1(v1.value, v2.value)])
    else if q[2] == Pad && q[3] == Pad && last then
      Some([Byte0(v0.value, v1.value)])
    else None
  }

  /** Decoding of newline-free input: a length that is not a multiple of four is
      corrupt, and the quanta are decoded in order. */
  function DecodeQuanta(s: Bytes): (r: Option<Bytes>)
    decreases |s|
  {
    if s == [] then Some([])
    else if |s| < 4 then None
    else
      match DecodeQuantum(s[..4], |s| == 4)
      case None => None
      case Some(head) =>
        match DecodeQuanta(s[4..])
        case None => None
        case Some(tail) => Some(head + tail)
  }

  /** DecodeString: carriage returns and line feeds are skipped, the rest must
      be whole quanta; every three bytes take four characters, the last quantum
      may carry one or two. */
  function Decode(s: Bytes): (r: Option<Bytes>)
    ensures |StripNewlines(s)| % 4 != 0 ==> r.None?
    ensures r.Some? ==> 3 * |StripNewlines(s)| <= 4 * |r.value| + 8 && 4 * |r.value| <= 3 * |StripNewlines(s)|
  {
    DecodeQuantaLength(StripNewlines(s));
    DecodeQuanta(StripNewlines(s))
  }

  /** Newline-free input decodes only when its length is a multiple of four, to
      three bytes per quantum, less one or two in a padded last quantum. */
  lemma {:induction false} DecodeQuantaLength(s: Bytes)
    ensures DecodeQuanta(s).Some? ==> |s| % 4 == 0
    ensures DecodeQuanta(s).Some? ==>
      3 * |s| <= 4 * |DecodeQuanta(s).value| + 8 && 4 * |DecodeQuanta(s).value| <= 3 * |s|
    decreases |s|
  {
    if |s| >= 4 && DecodeQuanta(s).Some? {
      var head := DecodeQuantum(s[..4], |s| == 4).value;
      DecodeQuantaLength(s[4..]);
      MultipleOfFourStep(|s[4..]|);
      if |head| < 3 {
        assert |s| == 4;
      }
    }
  }

  lemma MultipleOfFourStep(n: nat)
    requires n % 4 == 0
    ensures (n + 4) % 4 == 0
  {
  }

  /** Decoding undoes the encoding of any byte string. */
  lemma {:induction false} DecodeEncode(b: Bytes)
    ensures Decode(Encode(b)) == Some(b)
  {
    EncodeHasNoNewlines(b);
    DecodeQuantaEncode(b);
  }

  lemma {:induction false} EncodeHasNoNewlines(b: Bytes)
    ensures CR !in Encode(b) && LF !in Encode(b)
    decreases |b|
  {
    if |b| >= 3 {
      EncodeHasNoNewlines(b[3..]);
    }
  }

  /** The three bytes come back from the four values their encoding carries. */
  lemma GroupBytes(b0: byte, b1: byte, b2: byte)
    ensures Byte0(b0 / 4, (b0 % 4) * 16 + b1 / 16) == b0
    ensures Byte1((b0 % 4) * 16 + b1 / 16, (b1 % 16) * 4 + b2 / 64) == b1
    ensures Byte2((b1 % 16) * 4 + b2 / 64, b2 % 64) == b2
  {
  }

  /** A full group of three bytes decodes back, last quantum or not. */
  lemma GroupRoundTrip(b0: byte, b1: byte, b2: byte, last: bool)
    ensures DecodeQuantum(EncodeGroup(b0, b1, b2), last) == Some([b0, b1, b2])
  {
    ValueOfChar(b0 / 4);
    ValueOfChar((b0 % 4) * 16 + b1 / 16);
    ValueOfChar((b1 % 16) * 4 + b2 / 64);
    ValueOfChar(b2 % 64);
    GroupBytes(b0, b1, b2);
  }

  /** The quantum of a final group of one byte, padded with "==", decodes back. */
  lemma OneByteQuantum(q: Bytes, b0: byte)
    requires q == [Char(b0 / 4), Char((b0 % 4) * 16), Pad, Pad]
    ensures DecodeQuantum(q, true) == Some([b0])
  {
    ValueOfChar(b0 / 4);
    ValueOfChar((b0 % 4) * 16);
  }

  /** The quantum of a final group of two bytes, padded with "=", decodes back. */
  lemma TwoBytesQuantum(q: Bytes, b0: byte, b1: byte)
    requires q == [Char(b0 / 4), Char((b0 % 4) * 16 + b1 / 16), Char((b1 % 16) * 4), Pad]
    ensures DecodeQuantum(q, true) == Some([b0, b1])
  {
    ValueOfChar(b0 / 4);
    ValueOfChar((b0 % 4) * 16 + b1 / 16);
    ValueOfChar((b1 % 16) * 4);
    GroupBytes(b0, b1, 0);
  }

  /** A whole input that is one last quantum decodes as that quantum. */
  lemma LastQuantum(q: Bytes)
    requires |q| == 4
    ensures DecodeQuanta(q) == DecodeQuantum(q, true)
  {
    assert q[..4] == q && q[4..] == [];
    if DecodeQuantum(q, true).Some? {
      assert DecodeQuantum(q, true).value + [] == DecodeQuantum(q, true).value;
    }
  }

  /** A decodable quantum followed by decodable input decodes to the
      concatenation. */
  lemma DecodeQuantaCons(g: Bytes, t: Bytes, h: Bytes, x: Bytes)
    requires |g| == 4 && DecodeQuantum(g, t == []) == Some(h) && DecodeQuanta(t) == Some(x)
    ensures DecodeQuanta(g + t) == Some(h + x)
  {
    assert (g + t)[..4] == g && (g + t)[4..] == t;
  }

  /** The encoding of three or more bytes decodes back when the encoding of
      all but the first three does. */
  lemma GroupThenRest(b: Bytes)
    requires |b| >= 3 && DecodeQuanta(Encode(b[3..])) == Some(b[3..])
    ensures DecodeQuanta(Encode(b)) == Some(b)
  {
    var g, t := EncodeGroup(b[0], b[1], b[2]), Encode(b[3..]);
    assert Encode(b) == g + t;
    GroupRoundTrip(b[0], b[1], b[2], t == []);
    DecodeQuantaCons(g, t, [b[0], b[1], b[2]], b[3..]);
    FirstThree(b);
  }

  lemma FirstThree(b: Bytes)
    requires |b| >= 3
    ensures b == [b[0], b[1], b[2]] + b[3..]
  {
  }

  lemma {:induction false} DecodeQuantaEncode(b: Bytes)
    ensures DecodeQuanta(Encode(b)) == Some(b)
    decreases |b|
  {
    if |b| == 1 {
      OneByteQuantum(Encode(b), b[0]);
      LastQuantum(Encode(b));
      assert b == [b[0]];
    } else if |b| == 2 {
      TwoBytesQuantum(Encode(b), b[0], b[1]);
      LastQuantum(Encode(b));
      assert b == [b[0], b[1]];
    } else if |b| >= 3 {
      DecodeQuantaEncode(b[3..]);
      GroupThenRest(b);
    }
  }
}
