/**
 * Base64 (section 4 of RFC 4648): every three bytes become four characters
 * of the 64-letter alphabet `A-Z a-z 0-9 + /`, six bits each, and a final
 * group of one or two bytes is padded with `=` to four characters. Keys of
 * the credential store are the Base64 of their UTF-8 bytes.
 */
module Base64 {
  import opened Values
  import Utf8

  type sextet = x: int | 0 <= x < 64

  /** The alphabet of Table 1 of RFC 4648. */
  function Letter(n: sextet): (c: char)
    ensures c != '='
  {
    if n < 26 then ('A' as int + n) as char
    else if n < 52 then ('a' as int + (n - 26)) as char
    else if n < 62 then ('0' as int + (n - 52)) as char
    else if n == 62 then '+'
    else '/'
  }

  /** The value of a letter of the alphabet; None for any other character, `=` included. */
  function LetterValue(c: char): (r: Option<sextet>)
    ensures r.Some? ==> Letter(r.value) == c
  {
    if 'A' <= c <= 'Z' then Some(c as int - 'A' as int)
    else if 'a' <= c <= 'z' then Some(c as int - 'a' as int + 26)
    else if '0' <= c <= '9' then Some(c as int - '0' as int + 52)
    else if c == '+' then Some(62)
    else if c == '/' then Some(63)
    else None
  }

  lemma LetterValueOf(n: sextet)
    ensures LetterValue(Letter(n)) == Some(n)
  {
  }

  /** Three bytes as four letters. */
  function EncodeGroup(b0: byte, b1: byte, b2: byte): string
  {
    [Letter(b0 / 4), Letter((b0 % 4) * 16 + b1 / 16), Letter((b1 % 16) * 4 + b2 / 64), Letter(b2 % 64)]
  }

  /** `base64.b64encode`. */
  function Encode(b: seq<byte>): (r: string)
    decreases |b|
  {
    if |b| == 0 then []
    else if |b| == 1 then [Letter(b[0] / 4), Letter((b[0] % 4) * 16), '=', '=']
    else if |b| == 2 then [Letter(b[0] / 4), Letter((b[0] % 4) * 16 + b[1] / 16), Letter((b[1] % 16) * 4), '=']
    else EncodeGroup(b[0], b[1], b[2]) + Encode(b[3..])
  }

  /** Four letters as three bytes. */
  function DecodeGroup(c0: sextet, c1: sextet, c2: sextet, c3: sextet): seq<byte>
  {
    var n0, n1, n2, n3 := c0 as int, c1 as int, c2 as int, c3 as int;
    [n0 * 4 + n1 / 16, (n1 % 16) * 16 + n2 / 4, (n2 % 4) * 64 + n3]
  }

  /** Three letters and one `=` as two bytes, when the padding hides no set bit. */
  function DecodePadded1(c0: sextet, c1: sextet, c2: sextet): Option<seq<byte>>
  {
    var n0, n1, n2 := c0 as int, c1 as int, c2 as int;
    if n2 % 4 == 0 then Some([n0 * 4 + n1 / 16, (n1 % 16) * 16 + n2 / 4]) else None
  }

  /** Two letters and `==` as one byte, when the padding hides no set bit. */
  function DecodePadded2(c0: sextet, c1: sextet): Option<seq<byte>>
  {
    var n0, n1 := c0 as int, c1 as int;
    if n1 % 16 == 0 then Some([n0 * 4 + n1 / 16]) else None
  }

  /**
   * `base64.b64decode` of canonical input: None for a length that is not a
   * multiple of four, a character outside the alphabet, padding anywhere but
   * at the end, or padding that hides set bits.
   */
  function Decode(s: string): Option<seq<byte>>
    decreases |s|
  {
    if |s| == 0 then Some([])
    else if |s| < 4 then None
    else
      match (LetterValue(s[0]), LetterValue(s[1]), LetterValue(s[2]), LetterValue(s[3]))
      case (Some(c0), Some(c1), Some(c2), Some(c3)) =>
        (match Decode(s[4..])
         case None => None
         case Some(rest) => Some(DecodeGroup(c0, c1, c2, c3) + rest))
      case (Some(c0), Some(c1), Some(c2), None) =>
        if |s| == 4 && s[3] == '=' then DecodePadded1(c0, c1, c2) else None
      case (Some(c0), Some(c1), None, None) =>
        if |s| == 4 && s[2] == '=' && s[3] == '=' then DecodePadded2(c0, c1) else None
      case _ => None
  }

  /** A group of four letters in front decodes to its three bytes in front. */
  lemma DecodeFront(q0: sextet, q1: sextet, q2: sextet, q3: sextet, rest: string)
    ensures Decode([Letter(q0), Letter(q1), Letter(q2), Letter(q3)] + rest) ==
      match Decode(rest)
      case None => None
      case Some(r) => Some(DecodeGroup(q0, q1, q2, q3) + r)
  {
    var s := [Letter(q0), Letter(q1), Letter(q2), Letter(q3)] + rest;
    LetterValueOf(q0);
    LetterValueOf(q1);
    LetterValueOf(q2);
    LetterValueOf(q3);
    assert s[4..] == rest;
  }

  lemma DecodeEncodeGroup(b0: byte, b1: byte, b2: byte)
    ensures DecodeGroup(b0 / 4, (b0 % 4) * 16 + b1 / 16, (b1 % 16) * 4 + b2 / 64, b2 % 64) == [b0, b1, b2]
  {
  }

  lemma DecodePadded2Of(b0: byte)
    ensures DecodePadded2(b0 / 4, (b0 % 4) * 16) == Some([b0])
  {
  }

  lemma DecodePadded1Of(b0: byte, b1: byte)
    ensures DecodePadded1(b0 / 4, (b0 % 4) * 16 + b1 / 16, (b1 % 16) * 4) == Some([b0, b1])
  {
  }

  lemma DecodeEncodeOne(b0: byte)
    ensures Decode(Encode([b0])) == Some([b0])
  {
    LetterValueOf(b0 / 4);
    LetterValueOf((b0 % 4) * 16);
    DecodePadded2Of(b0);
  }

  lemma DecodeEncodeTwo(b0: byte, b1: byte)
    ensures Decode(Encode([b0, b1])) == Some([b0, b1])
  {
    LetterValueOf(b0 / 4);
    LetterValueOf((b0 % 4) * 16 + b1 / 16);
    LetterValueOf((b1 % 16) * 4);
    DecodePadded1Of(b0, b1);
  }

  /** Decoding undoes encoding. */
  lemma {:induction false} DecodeEncode(b: seq<byte>)
    ensures Decode(Encode(b)) == Some(b)
    decreases |b|
  {
    if |b| >= 3 {
      var q0, q1, q2, q3 := b[0] / 4, (b[0] % 4) * 16 + b[1] / 16, (b[1] % 16) * 4 + b[2] / 64, b[2] % 64;
      var tail := Encode(b[3..]);
      assert Encode(b) == [Letter(q0), Letter(q1), Letter(q2), Letter(q3)] + tail;
      DecodeFront(q0, q1, q2, q3, tail);
      DecodeEncode(b[3..]);
      DecodeEncodeGroup(b[0], b[1], b[2]);
      assert b == [b[0], b[1], b[2]] + b[3..];
    } else {
      DecodeEncodeShort(b);
    }
  }

  /** Decoding undoes encoding of a final group of fewer than three bytes. */
  lemma DecodeEncodeShort(b: seq<byte>)
    requires |b| < 3
    ensures Decode(Encode(b)) == Some(b)
  {
    if |b| == 1 {
      assert b == [b[0]];
      DecodeEncodeOne(b[0]);
    } else if |b| == 2 {
      assert b == [b[0], b[1]];
      DecodeEncodeTwo(b[0], b[1]);
    }
  }

  /** A text's key: the Base64 of its UTF-8 bytes. */
  function EncodeText(s: string): string
  {
    Encode(Utf8.Encode(s))
  }

  /** A key decodes back to the text it was made from. */
  function DecodeText(k: string): Option<string>
  {
    match Decode(k)
    case None => None
    case Some(bytes) => Utf8.Decode(bytes)
  }

  lemma DecodeEncodeText(s: string)
    ensures DecodeText(EncodeText(s)) == Some(s)
  {
    DecodeEncode(Utf8.Encode(s));
    Utf8.DecodeEncode(s);
  }

  /** Two texts never share a key. */
  lemma EncodeTextInjective()
    ensures forall a, b :: EncodeText(a) == EncodeText(b) ==> a == b
  {
    forall a, b | EncodeText(a) == EncodeText(b)
      ensures a == b
    {
      DecodeEncodeText(a);
      DecodeEncodeText(b);
    }
  }

  lemma TestRootGroups()
    ensures EncodeGroup(116, 101, 115) == "dGVz"
    ensures EncodeGroup(116, 95, 114) == "dF9y"
    ensures EncodeGroup(111, 111, 116) == "b290"
  {
    assert Letter(29) == 'd' && Letter(6) == 'G' && Letter(21) == 'V' && Letter(51) == 'z';
    assert Letter(5) == 'F' && Letter(61) == '9' && Letter(50) == 'y';
    assert Letter(27) == 'b' && Letter(54) == '2' && Letter(52) == '0';
  }

  lemma TestRootBytes()
    ensures Utf8.Encode("test_root") == [116, 101, 115, 116, 95, 114, 111, 111, 116]
  {
    Utf8.EncodeAscii("test_root");
  }

  lemma TestRootEncode(bytes: seq<byte>)
    requires bytes == [116, 101, 115, 116, 95, 114, 111, 111, 116]
    ensures Encode(bytes) == "dGVzdF9yb290"
  {
    TestRootGroups();
    assert Encode(bytes[6..]) == EncodeGroup(111, 111, 116) + Encode(bytes[9..]);
    assert Encode(bytes[3..]) == EncodeGroup(116, 95, 114) + Encode(bytes[6..]);
  }

  /** The key of 'test_root'. */
  lemma TestRootKey()
    ensures EncodeText("test_root") == "dGVzdF9yb290"
  {
    TestRootBytes();
    TestRootEncode(Utf8.Encode("test_root"));
  }
}
