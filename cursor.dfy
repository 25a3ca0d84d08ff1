/**
 * The opaque pagination cursor of the session listing: the store's last
 * evaluated key written as JSON text, encoded as UTF-8 and then as base64.
 * A cursor this module produced decodes back to the key it came from.
 */
module Cursor {
  import opened Wrappers
  import opened Strings
  import Utf8
  import Base64

  /** The primary key of a fasting session item: partition key userId, sort key sessionId. */
  datatype SessionKey = SessionKey(sessionId: string, userId: string)

  /** The lower-case hexadecimal digit for 0..15. */
  function HexDigit(n: nat): (c: char)
    requires n < 16
  {
    if n < 10 then ('0' as int + n) as char else ('a' as int + (n - 10)) as char
  }

  /** The value of a hexadecimal digit of either case. */
  function HexValue(c: char): (r: Option<nat>)
    ensures r.Some? ==> r.value < 16
  {
    if '0' <= c <= '9' then Some(c as int - '0' as int)
    else if 'a' <= c <= 'f' then Some(c as int - 'a' as int + 10)
    else if 'A' <= c <= 'F' then Some(c as int - 'A' as int + 10)
    else None
  }

  /** How JSON text spells one character inside a string literal. */
  function EscapeChar(c: char): (e: string)
    ensures |e| >= 1
    ensures |e| == 1 ==> e == [c] && c != '"' && c != '\\' && c >= ' '
    ensures |e| > 1 ==> e[0] == '\\'
  {
    if c == '"' then ['\\', '"']
    else if c == '\\' then ['\\', '\\']
    else if c == 8 as char then ['\\', 'b']
    else if c == 12 as char then ['\\', 'f']
    else if c == '\n' then ['\\', 'n']
    else if c == '\r' then ['\\', 'r']
    else if c == '\t' then ['\\', 't']
    else if c < ' ' then ['\\', 'u', '0', '0', HexDigit(c as int / 16), HexDigit(c as int % 16)]
    else [c]
  }

  /** The body of a JSON string literal for `s`, without the quotes. */
  function Escape(s: string): string {
    if s == [] then [] else EscapeChar(s[0]) + Escape(s[1..])
  }

  /** The character an escape sequence stands for, and the length of the sequence. */
  function Unescape(s: string): (r: Option<(char, nat)>)
    requires |s| >= 1 && s[0] == '\\'
    ensures r.Some? ==> 2 <= r.value.1 <= |s|
  {
    if |s| < 2 then None
    else if s[1] == '"' then Some(('"', 2))
    else if s[1] == '\\' then Some(('\\', 2))
    else if s[1] == '/' then Some(('/', 2))
    else if s[1] == 'b' then Some((8 as char, 2))
    else if s[1] == 'f' then Some((12 as char, 2))
    else if s[1] == 'n' then Some(('\n', 2))
    else if s[1] == 'r' then Some(('\r', 2))
    else if s[1] == 't' then Some(('\t', 2))
    else if s[1] == 'u' && |s| >= 6 then
      match (HexValue(s[2]), HexValue(s[3]), HexValue(s[4]), HexValue(s[5]))
      case (Some(h0), Some(h1), Some(h2), Some(h3)) =>
        var cp := ((h0 * 16 + h1) * 16 + h2) * 16 + h3;
        if 0xD800 <= cp < 0xE000 then None else Some((cp as char, 6))
      case _ => None
    else None
  }

  /**
   * Reads the body of a JSON string literal up to its closing quote, giving the
   * string and what follows the quote.
   */
  function ParseString(s: string): (r: Option<(string, string)>)
    ensures r.Some? ==> |r.value.1| < |s|
    decreases |s|
  {
    if |s| == 0 then None
    else if s[0] == '"' then Some(([], s[1..]))
    else if s[0] == '\\' then
      match Unescape(s)
      case None => None
      case Some((c, n)) =>
        match ParseString(s[n..])
        case None => None
        case Some((body, rest)) => Some(([c] + body, rest))
    else if s[0] < ' ' then None
    else
      match ParseString(s[1..])
      case None => None
      case Some((body, rest)) => Some(([s[0]] + body, rest))
  }

  lemma UnescapeEscape(c: char, rest: string)
    requires |EscapeChar(c)| > 1
    ensures Unescape(EscapeChar(c) + rest) == Some((c, |EscapeChar(c)|))
  {
    var e := EscapeChar(c) + rest;
    if c < ' ' && c != 8 as char && c != 12 as char && c != '\n' && c != '\r' && c != '\t' {
      var hi, lo := c as int / 16, c as int % 16;
      assert e[2] == '0' && e[3] == '0' && e[4] == HexDigit(hi) && e[5] == HexDigit(lo);
      assert HexValue(HexDigit(hi)) == Some(hi) && HexValue(HexDigit(lo)) == Some(lo);
      assert ((0 * 16 + 0) * 16 + hi) * 16 + lo == c as int;
    }
  }

  /** One escaped character in front of a readable string literal body is read back. */
  lemma ParseEscapedChar(c: char, tail: string, body: string, rest: string)
    requires ParseString(tail) == Some((body, rest))
    ensures ParseString(EscapeChar(c) + tail) == Some(([c] + body, rest))
  {
    var e := EscapeChar(c);
    var t := e + tail;
    if |e| > 1 {
      UnescapeEscape(c, tail);
      assert t[|e|..] == tail;
    } else {
      assert t[1..] == tail;
    }
  }

  /** Reading back an escaped string, whatever follows its closing quote, gives the string. */
  lemma {:induction false} ParseEscaped(s: string, rest: string)
    ensures ParseString(Escape(s) + ['"'] + rest) == Some((s, rest))
    decreases |s|
  {
    if s == [] {
      assert Escape(s) + ['"'] + rest == ['"'] + rest;
    } else {
      var tail := Escape(s[1..]) + ['"'] + rest;
      assert Escape(s) + ['"'] + rest == EscapeChar(s[0]) + tail;
      ParseEscaped(s[1..], rest);
      ParseEscapedChar(s[0], tail, s[1..], rest);
      assert [s[0]] + s[1..] == s;
    }
  }

  const KeyOpen: string := "{\"sessionId\":\""
  const KeyNext: string := ",\"userId\":\""
  const KeyClose: string := "}"

  /** The key as a JSON object, as it is serialised into a cursor. */
  function KeyJson(k: SessionKey): string {
    KeyOpen + Escape(k.sessionId) + ['"'] + KeyNext + Escape(k.userId) + ['"'] + KeyClose
  }

  /** What follows the prefix `p` of `t`, if `t` starts with it. */
  function StripPrefix(t: string, p: string): (r: Option<string>)
    ensures r.Some? ==> t == p + r.value
  {
    if StartsWith(t, p) then
      assert t == t[..|p|] + t[|p|..];
      Some(t[|p|..])
    else None
  }

  lemma StripPrefixOf(p: string, x: string)
    ensures StripPrefix(p + x, p) == Some(x)
  {
    assert (p + x)[..|p|] == p;
    assert (p + x)[|p|..] == x;
  }

  /**
   * Reads back two escaped string literals framed by `open`, `next` and
   * `close`, as `KeyJson` writes them; any other text is refused.
   */
  function ParseFramed(t: string, open: string, next: string, close: string): (r: Option<SessionKey>) {
    match StripPrefix(t, open)
    case None => None
    case Some(t1) =>
      match ParseString(t1)
      case None => None
      case Some((sid, t2)) =>
        match StripPrefix(t2, next)
        case None => None
        case Some(t3) =>
          match ParseString(t3)
          case None => None
          case Some((uid, t4)) => if t4 == close then Some(SessionKey(sid, uid)) else None
  }

  /** Reads back the JSON object `KeyJson` writes; any other text is refused. */
  function ParseKeyJson(t: string): (r: Option<SessionKey>) {
    ParseFramed(t, KeyOpen, KeyNext, KeyClose)
  }

  /** Whatever the frame, two escaped strings written into it are read back. */
  lemma ParseFramedOf(sid: string, uid: string, open: string, next: string, close: string)
    ensures ParseFramed(open + Escape(sid) + ['"'] + next + Escape(uid) + ['"'] + close, open, next, close)
         == Some(SessionKey(sid, uid))
  {
    var t := open + Escape(sid) + ['"'] + next + Escape(uid) + ['"'] + close;
    var t3 := Escape(uid) + ['"'] + close;
    var t2 := next + t3;
    var t1 := Escape(sid) + ['"'] + t2;
    assert StripPrefix(t, open) == Some(t1) by {
      assert t == open + t1;
      StripPrefixOf(open, t1);
    }
    assert ParseString(t1) == Some((sid, t2)) by {
      ParseEscaped(sid, t2);
    }
    assert StripPrefix(t2, next) == Some(t3) by {
      StripPrefixOf(next, t3);
    }
    assert ParseString(t3) == Some((uid, close)) by {
      ParseEscaped(uid, close);
    }
  }

  /** Round trip of the key's JSON text. */
  lemma ParseKeyJsonOfKey(k: SessionKey)
    ensures ParseKeyJson(KeyJson(k)) == Some(k)
  {
    ParseFramedOf(k.sessionId, k.userId, KeyOpen, KeyNext, KeyClose);
  }

  /** The cursor handed to clients for a last evaluated key. */
  function EncodeToken(k: SessionKey): (t: string)
    ensures |t| > 0
  {
    Base64.Encode(Utf8.Encode(KeyJson(k)))
  }

  /** The key a client's cursor stands for, if it is one this module could have produced. */
  function DecodeToken(t: string): (r: Option<SessionKey>) {
    match Base64.Decode(t)
    case None => None
    case Some(bytes) =>
      match Utf8.Decode(bytes)
      case None => None
      case Some(text) => ParseKeyJson(text)
  }

  /** Round trip: a cursor produced for a key decodes to that key. */
  lemma {:induction false} DecodeEncodeToken(k: SessionKey)
    ensures DecodeToken(EncodeToken(k)) == Some(k)
  {
    Base64.DecodeEncode(Utf8.Encode(KeyJson(k)));
    Utf8.DecodeEncode(KeyJson(k));
    ParseKeyJsonOfKey(k);
  }
}
