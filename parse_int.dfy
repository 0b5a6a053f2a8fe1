/** The global `parseInt(string)` with no radix argument, as section 19.2.5
    of ECMA-262 defines it, applied to a string that has already gone through
    ToString: skip leading white space, read an optional sign, switch to base
    16 after a `0x` or `0X` prefix, take the longest prefix of digits in the
    base, and answer NaN when that prefix is empty. */
module NumberParsing {
  import opened JsValues

  /** A JavaScript number as `parseInt` can produce it. Negative zero is
      represented by `Int(0)`. */
  datatype Number = NaN | Int(value: int)

  /** StrWhiteSpaceChar: WhiteSpace (tab, vertical tab, form feed, the byte
      order mark and every space separator) or LineTerminator. */
  predicate IsStrWhiteSpace(c: char)
  {
    || c == '\t' || c == '\U{B}' || c == '\U{C}' || c == '\U{FEFF}'
    || c == ' ' || c == '\U{A0}' || c == '\U{1680}' || ('\U{2000}' <= c <= '\U{200A}')
    || c == '\U{202F}' || c == '\U{205F}' || c == '\U{3000}'
    || c == '\n' || c == '\r' || c == '\U{2028}' || c == '\U{2029}'
  }

  predicate IsDecimalDigit(c: char)
  {
    '0' <= c <= '9'
  }

  /** The value of `c` as a digit of a base up to 36; 36 when `c` is not a
      letter or a decimal digit. */
  function DigitValue(c: char): (d: nat)
    ensures d <= 36
    ensures IsDecimalDigit(c) <==> d < 10
  {
    if '0' <= c <= '9' then c as int - '0' as int
    else if 'a' <= c <= 'z' then c as int - 'a' as int + 10
    else if 'A' <= c <= 'Z' then c as int - 'A' as int + 10
    else 36
  }

  predicate IsDigitIn(c: char, radix: nat)
  {
    DigitValue(c) < radix
  }

  /** `s` with its leading white space removed. */
  function TrimStart(s: string): (r: string)
    ensures |r| <= |s|
    ensures r != [] ==> !IsStrWhiteSpace(r[0])
    ensures s != [] && !IsStrWhiteSpace(s[0]) ==> r == s
  {
    if s != [] && IsStrWhiteSpace(s[0]) then TrimStart(s[1..]) else s
  }

  /** `TrimStart` removes exactly the leading white space: what it keeps is a
      suffix of the input that does not start with white space, and what it
      drops is all white space. */
  lemma {:induction false} TrimStartSpec(s: string)
    ensures |TrimStart(s)| <= |s| && TrimStart(s) == s[|s| - |TrimStart(s)|..]
    ensures forall i | 0 <= i < |s| - |TrimStart(s)| :: IsStrWhiteSpace(s[i])
    ensures TrimStart(s) != [] ==> !IsStrWhiteSpace(TrimStart(s)[0])
  {
    if s != [] && IsStrWhiteSpace(s[0]) {
      var t := TrimStart(s[1..]);
      TrimStartSpec(s[1..]);
      assert TrimStart(s) == t;
      assert s[1..][|s| - 1 - |t|..] == s[|s| - |t|..];
      forall i | 0 <= i < |s| - |t| ensures IsStrWhiteSpace(s[i]) {
        if i > 0 {
          assert s[i] == s[1..][i - 1];
        }
      }
    }
  }

  /** The length of the longest prefix of `s` made of digits in `radix`. */
  function DigitPrefixLength(s: string, radix: nat): (k: nat)
    ensures k <= |s|
    ensures forall i | 0 <= i < k :: IsDigitIn(s[i], radix)
    ensures k < |s| ==> !IsDigitIn(s[k], radix)
  {
    if s != [] && IsDigitIn(s[0], radix) then 1 + DigitPrefixLength(s[1..], radix) else 0
  }

  /** The integer that the digits `z` denote in `radix`, most significant first. */
  function DigitsValue(z: string, radix: nat): nat
    requires forall i | 0 <= i < |z| :: IsDigitIn(z[i], radix)
  {
    if z == [] then 0
    else
      var init := z[..|z| - 1];
      assert forall i | 0 <= i < |init| :: init[i] == z[i];
      var high: nat := DigitsValue(init, radix);
      MulNat(high, radix);
      high * radix + DigitValue(z[|z| - 1])
  }

  /** Non-linear arithmetic is left to the solver's heuristics; this fact
      keeps `DigitsValue` well-formed on every solver seed. */
  lemma MulNat(a: nat, b: nat)
    ensures a * b >= 0
  {
  }

  /** Whether the string begins with the hexadecimal prefix `0x` or `0X`. */
  predicate HasHexPrefix(s: string)
  {
    |s| >= 2 && s[0] == '0' && (s[1] == 'x' || s[1] == 'X')
  }

  /** Steps 6 to 14 of the algorithm: the magnitude that an unsigned
      digit string denotes, after an optional hexadecimal prefix. */
  function ParseMagnitude(unsigned: string): (r: Number)
    ensures r.Int? ==> r.value >= 0
    ensures r.NaN? <==>
      if HasHexPrefix(unsigned) then |unsigned| == 2 || !IsDigitIn(unsigned[2], 16)
      else unsigned == [] || !IsDecimalDigit(unsigned[0])
  {
    var radix := if HasHexPrefix(unsigned) then 16 else 10;
    var body := if HasHexPrefix(unsigned) then unsigned[2..] else unsigned;
    var end := DigitPrefixLength(body, radix);
    if end == 0 then NaN else Int(DigitsValue(body[..end], radix))
  }

  /** Step 16: the sign applied to the magnitude; NaN stays NaN, and the
      negative zero of step 15 is `Int(0)` here. */
  function Negate(r: Number): Number
  {
    match r
    case NaN => NaN
    case Int(m) => Int(-m)
  }

  /** `parseInt(input)` with no radix. Blank input is NaN, and the result
      is negative only after an explicit minus sign. */
  function ParseInt(input: string): (r: Number)
    ensures TrimStart(input) == [] ==> r == NaN
    ensures r.Int? && r.value < 0 ==> TrimStart(input)[0] == '-'
    ensures r.Int? && r.value > 0 ==> TrimStart(input)[0] != '-'
  {
    var s := TrimStart(input);
    if s != [] && s[0] == '-' then Negate(ParseMagnitude(s[1..]))
    else if s != [] && s[0] == '+' then ParseMagnitude(s[1..])
    else ParseMagnitude(s)
  }

  /** The decimal form of a natural number is a non-empty run of decimal
      digits whose value is the number, and it starts with `0` only for zero. */
  lemma {:induction false} NatToDecimalDigits(n: nat)
    ensures |NatToDecimal(n)| >= 1
    ensures forall i | 0 <= i < |NatToDecimal(n)| :: IsDecimalDigit(NatToDecimal(n)[i])
    ensures NatToDecimal(n)[0] == '0' ==> n == 0
    ensures DigitsValue(NatToDecimal(n), 10) == n
  {
    var s := NatToDecimal(n);
    if n >= 10 {
      NatToDecimalDigits(n / 10);
      var p := NatToDecimal(n / 10);
      assert s == p + [DigitChar(n % 10)];
      assert s[..|s| - 1] == p;
    }
  }

  /** A run of digits followed by something that is not a digit is exactly
      the longest digit prefix. */
  lemma {:induction false} DigitPrefixOfRun(z: string, rest: string, radix: nat)
    requires forall i | 0 <= i < |z| :: IsDigitIn(z[i], radix)
    requires rest == [] || !IsDigitIn(rest[0], radix)
    ensures DigitPrefixLength(z + rest, radix) == |z|
  {
    if z != [] {
      assert (z + rest)[1..] == z[1..] + rest;
      DigitPrefixOfRun(z[1..], rest, radix);
    } else {
      assert z + rest == rest;
    }
  }

  /** The decimal digits of `m` followed by text that does not continue
      them have magnitude `m`. */
  lemma MagnitudeOfDecimal(m: nat, rest: string)
    requires rest == [] || !IsDecimalDigit(rest[0])
    requires m == 0 && rest != [] ==> rest[0] != 'x' && rest[0] != 'X'
    ensures ParseMagnitude(NatToDecimal(m) + rest) == Int(m)
  {
    var digits := NatToDecimal(m);
    NatToDecimalDigits(m);
    var unsigned := digits + rest;
    assert !HasHexPrefix(unsigned) by {
      if |unsigned| >= 2 && unsigned[0] == '0' {
        assert unsigned[1] == rest[0];
      }
    }
    DigitPrefixOfRun(digits, rest, 10);
    assert unsigned[..|digits|] == digits;
  }

  /** A decimal integer followed by text that does not continue it parses to
      that integer: `parseInt("200px")` is 200. After a lone `0`, an `x` or `X`
      would start a hexadecimal prefix instead, so that case is excluded. */
  lemma ParseIntDecimalPrefix(n: int, rest: string)
    requires rest == [] || !IsDecimalDigit(rest[0])
    requires n == 0 && rest != [] ==> rest[0] != 'x' && rest[0] != 'X'
    ensures ParseInt(IntToDecimal(n) + rest) == Int(n)
  {
    if n < 0 {
      ParseNegativePrefix(n, rest);
    } else {
      ParseNonNegativePrefix(n, rest);
    }
  }

  lemma ParseNegativePrefix(n: int, rest: string)
    requires n < 0
    requires rest == [] || !IsDecimalDigit(rest[0])
    ensures ParseInt(IntToDecimal(n) + rest) == Int(n)
  {
    var m: nat := -n;
    var digits := NatToDecimal(m);
    assert IntToDecimal(n) == "-" + digits;
    ParseNegativeDecimal(m, rest);
  }

  lemma ParseNonNegativePrefix(n: int, rest: string)
    requires n >= 0
    requires rest == [] || !IsDecimalDigit(rest[0])
    requires n == 0 && rest != [] ==> rest[0] != 'x' && rest[0] != 'X'
    ensures ParseInt(IntToDecimal(n) + rest) == Int(n)
  {
    ParseNonNegativeDecimal(n, rest);
    assert IntToDecimal(n) == NatToDecimal(n);
  }

  lemma ParseNonNegativeDecimal(m: nat, rest: string)
    requires rest == [] || !IsDecimalDigit(rest[0])
    requires m == 0 && rest != [] ==> rest[0] != 'x' && rest[0] != 'X'
    ensures ParseInt(NatToDecimal(m) + rest) == Int(m)
  {
    var input := NatToDecimal(m) + rest;
    NatToDecimalDigits(m);
    MagnitudeOfDecimal(m, rest);
    assert input[0] == NatToDecimal(m)[0];
    TrimStartKeeps(input);
    ParseIntUnsigned(input);
  }

  lemma ParseNegativeDecimal(m: nat, rest: string)
    requires m > 0
    requires rest == [] || !IsDecimalDigit(rest[0])
    ensures ParseInt("-" + NatToDecimal(m) + rest) == Int(-(m as int))
  {
    var u := NatToDecimal(m) + rest;
    var input := "-" + NatToDecimal(m) + rest;
    assert input == "-" + u;
    assert input[1..] == u;
    MagnitudeOfDecimal(m, rest);
    TrimStartKeeps(input);
    ParseIntNegative(input);
  }

  lemma ParseIntUnsigned(s: string)
    requires s != [] && IsDecimalDigit(s[0]) && TrimStart(s) == s
    ensures ParseInt(s) == ParseMagnitude(s)
  {
  }

  lemma ParseIntNegative(s: string)
    requires s != [] && s[0] == '-' && TrimStart(s) == s
    ensures ParseInt(s) == Negate(ParseMagnitude(s[1..]))
  {
  }

  lemma TrimStartKeeps(s: string)
    requires s != [] && (s[0] == '-' || IsDecimalDigit(s[0]))
    ensures TrimStart(s) == s
  {
    assert !IsStrWhiteSpace(s[0]);
  }

  /** `parseInt` reads back every integer that Number::toString writes. */
  lemma ParseIntRoundTrip(n: int)
    ensures ParseInt(IntToDecimal(n)) == Int(n)
  {
    ParseIntDecimalPrefix(n, []);
    assert IntToDecimal(n) + [] == IntToDecimal(n);
  }

  /** Leading white space never changes what `parseInt` returns. */
  lemma {:induction false} ParseIntSkipsWhiteSpace(ws: string, s: string)
    requires forall i | 0 <= i < |ws| :: IsStrWhiteSpace(ws[i])
    ensures ParseInt(ws + s) == ParseInt(s)
  {
    TrimStartOfWhiteSpace(ws, s);
  }

  lemma {:induction false} TrimStartOfWhiteSpace(ws: string, s: string)
    requires forall i | 0 <= i < |ws| :: IsStrWhiteSpace(ws[i])
    ensures TrimStart(ws + s) == TrimStart(s)
  {
    if ws == [] {
      assert ws + s == s;
    } else {
      assert (ws + s)[1..] == ws[1..] + s;
      TrimStartOfWhiteSpace(ws[1..], s);
    }
  }

  /** A string without any decimal digit parses to NaN: `"null"`, `"true"`,
      `"[object Object]"` and `""` among them. */
  lemma ParseIntWithoutDigits(s: string)
    requires forall i | 0 <= i < |s| :: !IsDecimalDigit(s[i])
    ensures ParseInt(s) == NaN
  {
    var t := TrimStart(s);
    TrimStartSpec(s);
    assert forall i | 0 <= i < |t| :: t[i] == s[|s| - |t| + i];
    if t != [] {
      assert t[1..] == [] || !IsDecimalDigit(t[1..][0]);
      MagnitudeWithoutLeadingDigit(t[1..]);
    }
    MagnitudeWithoutLeadingDigit(t);
  }

  /** Without a leading decimal digit there is neither a hexadecimal prefix
      nor a decimal digit, so the magnitude is NaN. */
  lemma MagnitudeWithoutLeadingDigit(u: string)
    requires u == [] || !IsDecimalDigit(u[0])
    ensures ParseMagnitude(u) == NaN
  {
  }

  /** A leading `+` is dropped and changes nothing: `parseInt("+s")` is the
      magnitude of `s`. */
  lemma PlusSign(s: string)
    ensures ParseInt("+" + s) == ParseMagnitude(s)
  {
    assert ("+" + s)[0] == '+';
    assert ("+" + s)[1..] == s;
    assert TrimStart("+" + s) == "+" + s;
  }

  /** After a `0x` or `0X` prefix the digits are read in base 16, up to the
      first character that is not a hexadecimal digit: `parseInt("0x1Fg")`
      is 31. */
  lemma ParseIntHex(x: char, h: string, rest: string)
    requires x == 'x' || x == 'X'
    requires h != [] && forall i | 0 <= i < |h| :: IsDigitIn(h[i], 16)
    requires rest == [] || !IsDigitIn(rest[0], 16)
    ensures ParseInt(['0', x] + h + rest) == Int(DigitsValue(h, 16))
  {
    var s := ['0', x] + (h + rest);
    assert ['0', x] + h + rest == s;
    ParseIntOfLeadingZero(s);
    MagnitudeOfHex(s, h, rest);
  }

  lemma ParseIntOfLeadingZero(s: string)
    requires s != [] && s[0] == '0'
    ensures ParseInt(s) == ParseMagnitude(s)
  {
    TrimStartKeeps(s);
    ParseIntUnsigned(s);
  }

  lemma MagnitudeOfHex(s: string, h: string, rest: string)
    requires HasHexPrefix(s) && s[2..] == h + rest
    requires h != [] && forall i | 0 <= i < |h| :: IsDigitIn(h[i], 16)
    requires rest == [] || !IsDigitIn(rest[0], 16)
    ensures ParseMagnitude(s) == Int(DigitsValue(h, 16))
  {
    DigitPrefixOfRun(h, rest, 16);
    assert (h + rest)[..|h|] == h;
  }
}
