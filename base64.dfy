/**
 * Base64 with the standard alphabet and `=` padding (RFC 4648, section 4),
 * the encoding of a byte buffer's `toString('base64')`. Decoding accepts exactly
 * the padded canonical form of that section; the round trip is proved.
 */
module Base64 {
  import opened Wrappers
  import opened Strings

  /** The alphabet of section 4: A-Z, a-z, 0-9, '+', '/'. */
  function Digit(i: int): (c: char)
    requires 0 <= i < 64
    ensures c != '='
  {
    if i < 26 then ('A' as int + i) as char
    else if i < 52 then ('a' as int + (i - 26)) as char
    else if i < 62 then ('0' as int + (i - 52)) as char
    else if i == 62 then '+'
    else '/'
  }

  /** The value of an alphabet character; padding and other characters have none. */
  function DigitValue(c: char): (r: Option<int>)
    ensures r.Some? ==> 0 <= r.value < 64 && Digit(r.value) == c
  {
    if 'A' <= c <= 'Z' then Some(c as int - 'A' as int)
    else if 'a' <= c <= 'z' then Some(c as int - 'a' as int + 26)
    else if '0' <= c <= '9' then Some(c as int - '0' as int + 52)
    else if c == '+' then Some(62)
    else if c == '/' then Some(63)
    else None
  }

  lemma DigitValueOfDigit(i: int)
    requires 0 <= i < 64
    ensures DigitValue(Digit(i)) == Some(i)
  {
  }

  /** The four characters that stand for three bytes. */
  function Group(b0: byte, b1: byte, b2: byte): (q: string)
    ensures |q| == 4
  {
    [Digit(b0 / 4), Digit((b0 % 4) * 16 + b1 / 16), Digit((b1 % 16) * 4 + b2 / 64), Digit(b2 % 64)]
  }

  function Encode(bs: seq<byte>): (s: string)
    ensures |s| == 4 * ((|bs| + 2) / 3)
    decreases |bs|
  {
    if |bs| >= 3 then
      Group(bs[0], bs[1], bs[2]) + Encode(bs[3..])
    else if |bs| == 2 then
      [Digit(bs[0] / 4), Digit((bs[0] % 4) * 16 + bs[1] / 16), Digit((bs[1] % 16) * 4), '=']
    else if |bs| == 1 then
      [Digit(bs[0] / 4), Digit((bs[0] % 4) * 16), '=', '=']
    else
      []
  }

  /** Decodes one group of four characters; padding is allowed only in the final group. */
  function DecodeQuad(q: string, last: bool): (r: Option<seq<byte>>)
    requires |q| == 4
    ensures r.Some? ==> 1 <= |r.value| <= 3 && (|r.value| < 3 ==> last)
  {
    var a, b, c, d := DigitValue(q[0]), DigitValue(q[1]), DigitValue(q[2]), DigitValue(q[3]);
    if a.None? || b.None? then None
    else if c.Some? && d.Some? then
      Some([a.value * 4 + b.value / 16, (b.value % 16) * 16 + c.value / 4, (c.value % 4) * 64 + d.value])
    else if c.Some? && q[3] == '=' && last && c.value % 4 == 0 then
      Some([a.value * 4 + b.value / 16, (b.value % 16) * 16 + c.value / 4])
    else if q[2] == '=' && q[3] == '=' && last && b.value % 16 == 0 then
      Some([a.value * 4 + b.value / 16])
    else None
  }

  function Decode(s: string): (r: Option<seq<byte>>)
    decreases |s|
  {
    if |s| == 0 then Some([])
    else if |s| < 4 then None
    else
      match DecodeQuad(s[..4], |s| == 4)
      case None => None
      case Some(head) =>
        match Decode(s[4..])
        case None => None
        case Some(tail) => Some(head + tail)
  }

  lemma Recombine16(h: int, l: int)
    requires 0 <= l < 16
    ensures (h * 16 + l) / 16 == h && (h * 16 + l) % 16 == l
  {
  }

  lemma Recombine4(h: int, l: int)
    requires 0 <= l < 4
    ensures (h * 4 + l) / 4 == h && (h * 4 + l) % 4 == l
  {
  }

  lemma DecodeFullGroup(b0: byte, b1: byte, b2: byte, last: bool)
    ensures DecodeQuad(Group(b0, b1, b2), last) == Some([b0, b1, b2])
  {
    var a, b, c, d := b0 / 4, (b0 % 4) * 16 + b1 / 16, (b1 % 16) * 4 + b2 / 64, b2 % 64;
    DigitValueOfDigit(a);
    DigitValueOfDigit(b);
    DigitValueOfDigit(c);
    DigitValueOfDigit(d);
    Recombine16(b0 % 4, b1 / 16);
    Recombine4(b1 % 16, b2 / 64);
  }

  lemma DecodeEncodeTwo(b0: byte, b1: byte)
    ensures Decode(Encode([b0, b1])) == Some([b0, b1])
  {
    var a, b, c := b0 / 4, (b0 % 4) * 16 + b1 / 16, (b1 % 16) * 4;
    var s := Encode([b0, b1]);
    assert s == [Digit(a), Digit(b), Digit(c), '='];
    DigitValueOfDigit(a);
    DigitValueOfDigit(b);
    DigitValueOfDigit(c);
    Recombine16(b0 % 4, b1 / 16);
    Recombine4(b1 % 16, 0);
    assert DecodeQuad(s, true) == Some([b0, b1]);
    assert s[..4] == s && s[4..] == [];
    assert Decode(s) == Some([b0, b1] + []);
    assert [b0, b1] + [] == [b0, b1];
  }

  lemma DecodeEncodeOne(b0: byte)
    ensures Decode(Encode([b0])) == Some([b0])
  {
    var a, b := b0 / 4, (b0 % 4) * 16;
    var s := Encode([b0]);
    assert s == [Digit(a), Digit(b), '=', '='];
    DigitValueOfDigit(a);
    DigitValueOfDigit(b);
    Recombine16(b0 % 4, 0);
    assert DecodeQuad(s, true) == Some([b0]);
    assert s[..4] == s && s[4..] == [];
    assert Decode(s) == Some([b0] + []);
    assert [b0] + [] == [b0];
  }

  /** A group that decodes followed by a text that decodes: the two byte strings joined. */
  lemma DecodeGroupThen(q: string, rest: string, head: seq<byte>, tail: seq<byte>)
    requires |q| == 4 && DecodeQuad(q, |rest| == 0) == Some(head) && Decode(rest) == Some(tail)
    ensures Decode(q + rest) == Some(head + tail)
  {
    var s := q + rest;
    assert s[..4] == q && s[4..] == rest;
  }

  /** Round trip: decoding what `Encode` produced gives the bytes back. */
  lemma {:induction false} DecodeEncode(bs: seq<byte>)
    ensures Decode(Encode(bs)) == Some(bs)
    decreases |bs|
  {
    if |bs| >= 3 {
      var q, rest := Group(bs[0], bs[1], bs[2]), Encode(bs[3..]);
      DecodeFullGroup(bs[0], bs[1], bs[2], |rest| == 0);
      DecodeEncode(bs[3..]);
      DecodeGroupThen(q, rest, [bs[0], bs[1], bs[2]], bs[3..]);
      assert bs == [bs[0], bs[1], bs[2]] + bs[3..];
    } else if |bs| == 2 {
      DecodeEncodeTwo(bs[0], bs[1]);
      assert bs == [bs[0], bs[1]];
    } else if |bs| == 1 {
      DecodeEncodeOne(bs[0]);
      assert bs == [bs[0]];
    }
  }
}
