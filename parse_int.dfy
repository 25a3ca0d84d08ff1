/**
 * JavaScript's `parseInt(string)` with no radix: leading white space is
 * skipped, an optional sign is read, a "0x" or "0X" prefix selects base 16
 * (base 10 otherwise), and the longest run of digits of that base is the
 * value; anything after it is ignored. No digits at all gives NaN, written
 * here as `None`.
 */
module NumberParse {
  import opened Wrappers
  import opened Strings

  /** White space and line terminators as the language defines them (the space separators included). */
  predicate IsJsSpace(c: char) {
    || c == '\t' || c == '\n' || c == 0x0B as char || c == 0x0C as char || c == '\r' || c == ' '
    || c == 0xA0 as char || c == 0x1680 as char
    || (0x2000 as char <= c <= 0x200A as char)
    || c == 0x2028 as char || c == 0x2029 as char || c == 0x202F as char || c == 0x205F as char
    || c == 0x3000 as char || c == 0xFEFF as char
  }

  /** `s` without its leading white space. */
  function TrimStart(s: string): (r: string)
    ensures |r| <= |s| && r == s[|s| - |r|..]
    ensures r == [] || !IsJsSpace(r[0])
    ensures forall i :: 0 <= i < |s| - |r| ==> IsJsSpace(s[i])
  {
    if s != [] && IsJsSpace(s[0]) then TrimStart(s[1..]) else s
  }

  /** The value of `c` as a digit of base `radix` (10 or 16); letters of either case count from ten. */
  function DigitValue(c: char, radix: nat): (r: Option<nat>)
    requires radix == 10 || radix == 16
    ensures r.Some? ==> r.value < radix
  {
    if '0' <= c <= '9' then Some(c as int - '0' as int)
    else if radix == 16 && 'a' <= c <= 'f' then Some(c as int - 'a' as int + 10)
    else if radix == 16 && 'A' <= c <= 'F' then Some(c as int - 'A' as int + 10)
    else None
  }

  /** The length of the longest prefix of `s` made of digits of base `radix`. */
  function DigitRun(s: string, radix: nat): (n: nat)
    requires radix == 10 || radix == 16
    ensures n <= |s|
    ensures forall i :: 0 <= i < n ==> DigitValue(s[i], radix).Some?
    ensures n < |s| ==> DigitValue(s[n], radix).None?
  {
    if s != [] && DigitValue(s[0], radix).Some? then 1 + DigitRun(s[1..], radix) else 0
  }

  /** The number a run of digits denotes, most significant first. */
  function DigitsValue(ds: string, radix: nat): nat
    requires radix == 10 || radix == 16
    requires forall i :: 0 <= i < |ds| ==> DigitValue(ds[i], radix).Some?
    decreases |ds|
  {
    if ds == [] then 0
    else DigitsValue(ds[..|ds| - 1], radix) * radix + DigitValue(ds[|ds| - 1], radix).value
  }

  /** Whether `s` starts with the hexadecimal prefix "0x" or "0X". */
  predicate HexPrefixed(s: string) {
    |s| >= 2 && s[0] == '0' && (s[1] == 'x' || s[1] == 'X')
  }

  /** The number at the start of `t`, which has no leading white space. */
  function ParseTrimmed(t: string): Option<int> {
    if t != [] && t[0] == '-' then Negate(ParseUnsigned(t[1..]))
    else if t != [] && t[0] == '+' then ParseUnsigned(t[1..])
    else ParseUnsigned(t)
  }

  function Negate(r: Option<int>): Option<int> {
    if r.Some? then Some(-r.value) else None
  }

  /** The number at the start of `u`, after any sign: hexadecimal after "0x", decimal otherwise. */
  function ParseUnsigned(u: string): Option<int> {
    if HexPrefixed(u) then ParseDigits(u[2..], 16) else ParseDigits(u, 10)
  }

  /** The value of the longest run of digits of base `radix` at the start of `d`; none when there is no digit. */
  function ParseDigits(d: string, radix: nat): (r: Option<int>)
    requires radix == 10 || radix == 16
    ensures r.Some? ==> r.value >= 0
  {
    var n := DigitRun(d, radix);
    if n == 0 then None else Some(DigitsValue(d[..n], radix))
  }

  function ParseInt(s: string): Option<int> {
    ParseTrimmed(TrimStart(s))
  }

  // ------------------------------------------------------------ properties

  lemma {:induction false} DigitsOfNat(n: nat)
    ensures forall i :: 0 <= i < |NatToString(n)| ==> DigitValue(NatToString(n)[i], 10).Some?
    ensures DigitsValue(NatToString(n), 10) == n
  {
    var s := NatToString(n);
    if n >= 10 {
      DigitsOfNat(n / 10);
      assert s[..|s| - 1] == NatToString(n / 10);
    }
  }

  lemma {:induction false} DigitRunPrefix(d: string, rest: string, radix: nat)
    requires radix == 10 || radix == 16
    requires forall i :: 0 <= i < |d| ==> DigitValue(d[i], radix).Some?
    requires rest == [] || DigitValue(rest[0], radix).None?
    ensures DigitRun(d + rest, radix) == |d|
    decreases |d|
  {
    if d != [] {
      assert (d + rest)[1..] == d[1..] + rest;
      DigitRunPrefix(d[1..], rest, radix);
    } else {
      assert d + rest == rest;
    }
  }

  /** A run of decimal digits followed by a non-digit reads as the run's value. */
  lemma ParseDecimalDigits(n: nat, rest: string)
    requires rest == [] || DigitValue(rest[0], 10).None?
    ensures ParseDigits(NatToString(n) + rest, 10) == Some(n)
  {
    var d := NatToString(n);
    DigitsOfNat(n);
    DigitRunPrefix(d, rest, 10);
    assert (d + rest)[..|d|] == d;
  }

  /** Decimal text does not start with the hexadecimal prefix unless it is "0" followed by 'x' or 'X'. */
  lemma NotHexPrefixed(n: nat, rest: string)
    requires n == 0 ==> rest == [] || (rest[0] != 'x' && rest[0] != 'X')
    ensures !HexPrefixed(NatToString(n) + rest)
  {
    var d := NatToString(n);
    var s := d + rest;
    if |d| >= 2 {
      assert s[1] == d[1];
    } else {
      assert d == [DigitChar(n)];
      assert s[0] == DigitChar(n);
      if n == 0 && rest != [] {
        assert s[1] == rest[0];
      }
    }
  }

  /** Decimal text followed by something that is not a digit reads back as its number. */
  lemma ParseDecimalPrefix(n: nat, rest: string)
    requires rest == [] || DigitValue(rest[0], 10).None?
    requires n == 0 ==> rest == [] || (rest[0] != 'x' && rest[0] != 'X')
    ensures ParseInt(NatToString(n) + rest) == Some(n)
  {
    var s := NatToString(n) + rest;
    assert s[0] == NatToString(n)[0];
    DigitFirst(s);
    NotHexPrefixed(n, rest);
    ParseDecimalDigits(n, rest);
  }

  /** Text that starts with a decimal digit has no white space or sign to skip. */
  lemma DigitFirst(s: string)
    requires |s| > 0 && '0' <= s[0] <= '9'
    ensures ParseInt(s) == ParseUnsigned(s)
  {
    assert TrimStart(s) == s by { assert !IsJsSpace(s[0]); }
  }

  /** A minus sign before decimal text negates it. */
  lemma ParseNegative(n: nat)
    ensures ParseInt("-" + NatToString(n)) == Some(-(n as int))
  {
    var d := NatToString(n);
    var s := "-" + d;
    assert s != [] && s[0] == '-' && s[1..] == d + [];
    assert ParseInt(s) == ParseTrimmed(s) by {
      assert !IsJsSpace(s[0]);
    }
    assert ParseTrimmed(s) == Negate(ParseUnsigned(d + []));
    NotHexPrefixed(n, []);
    ParseDecimalDigits(n, []);
    assert ParseUnsigned(d + []) == Some(n);
  }

  /** Leading white space does not change the result. */
  lemma ParseSkipsSpace(c: char, s: string)
    requires IsJsSpace(c)
    ensures ParseInt([c] + s) == ParseInt(s)
  {
    assert ([c] + s)[1..] == s;
  }

  /** The text `parseInt` reads digits from: `t` without its sign, if it has one. */
  function Unsigned(t: string): (u: string)
    ensures |u| <= |t|
  {
    if t != [] && (t[0] == '-' || t[0] == '+') then t[1..] else t
  }

  lemma ParseTrimmedUnsigned(t: string)
    ensures ParseTrimmed(t) == ParseUnsigned(Unsigned(t)) || ParseTrimmed(t) == Negate(ParseUnsigned(Unsigned(t)))
  {
  }

  /** Text in which no decimal digit follows the white space and the sign is NaN. */
  lemma ParseNoDigits(s: string)
    requires var u := Unsigned(TrimStart(s)); u == [] || DigitValue(u[0], 10).None?
    ensures ParseInt(s) == None
  {
    var u := Unsigned(TrimStart(s));
    ParseTrimmedUnsigned(TrimStart(s));
    assert !HexPrefixed(u);
    assert DigitRun(u, 10) == 0;
  }

  /** The hexadecimal prefix with no hexadecimal digit after it is NaN. */
  lemma ParseHexNoDigits(s: string)
    requires var u := Unsigned(TrimStart(s)); HexPrefixed(u) && (|u| == 2 || DigitValue(u[2], 16).None?)
    ensures ParseInt(s) == None
  {
    var u := Unsigned(TrimStart(s));
    ParseTrimmedUnsigned(TrimStart(s));
    assert DigitRun(u[2..], 16) == 0;
  }

  /** After the prefix "0x" or "0X", the digits are read in base 16. */
  lemma ParseHex(x: char, d: string)
    requires x == 'x' || x == 'X'
    ensures ParseInt(['0', x] + d) == ParseDigits(d, 16)
  {
    var s := ['0', x] + d;
    assert s[0] == '0' && s[1] == x && s[2..] == d;
    assert TrimStart(s) == s by { assert !IsJsSpace('0'); }
    assert HexPrefixed(s);
  }

  /** Hexadecimal digits of either case: "1f" and "1F" both read as 31. */
  lemma HexDigitsValue()
    ensures ParseDigits("1f", 16) == Some(31) && ParseDigits("1F", 16) == Some(31)
  {
    assert DigitRun("1f", 16) == 2 by {
      assert "1f"[1..] == "f" && "f"[1..] == [];
    }
    assert DigitsValue("1f", 16) == 31 by {
      assert "1f"[..1] == "1" && "1"[..0] == [];
    }
    assert "1f"[..2] == "1f";
    assert DigitRun("1F", 16) == 2 by {
      assert "1F"[1..] == "F" && "F"[1..] == [];
    }
    assert DigitsValue("1F", 16) == 31 by {
      assert "1F"[..1] == "1" && "1"[..0] == [];
    }
    assert "1F"[..2] == "1F";
  }
}
