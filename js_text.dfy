/**
 * The few pieces of the JavaScript standard library that the scorekeeping
 * pages lean on, written out so that the rest of the model can use them:
 * `String.prototype.trim`, `split` on one separator character, `parseInt`
 * without a radix, the falsy default `x || d`, and `Math.round(a / b)`.
 */
module JsText {

  /** A result of `parseInt`: NaN, or an integer value. */
  datatype Num = NaN | Int(value: int)

  /** The characters `trim` removes: ECMAScript WhiteSpace and LineTerminator. */
  predicate IsSpace(c: char) {
    c == '\t' || c == '\n' || c == '\U{B}' || c == '\U{C}' || c == '\r' || c == ' ' ||
    c == '\U{A0}' || c == '\U{1680}' || ('\U{2000}' <= c <= '\U{200A}') ||
    c == '\U{2028}' || c == '\U{2029}' || c == '\U{202F}' || c == '\U{205F}' ||
    c == '\U{3000}' || c == '\U{FEFF}'
  }

  /** Drops the leading white space: the result is the longest suffix of `s`
      that does not start with a space. */
  function TrimStart(s: string): (r: string)
    ensures |r| <= |s|
  {
    if s != [] && IsSpace(s[0]) then TrimStart(s[1..]) else s
  }

  /** What `TrimStart` keeps is a suffix that does not start with a space. */
  lemma {:induction false} TrimStartSuffix(s: string)
    ensures TrimStart(s) == s[|s| - |TrimStart(s)|..]
    ensures TrimStart(s) == [] || !IsSpace(TrimStart(s)[0])
  {
    if s != [] && IsSpace(s[0]) {
      TrimStartSuffix(s[1..]);
    }
  }

  /** What `TrimStart` drops is white space only. */
  lemma {:induction false} TrimStartDropsSpaces(s: string)
    ensures forall i :: 0 <= i < |s| - |TrimStart(s)| ==> IsSpace(s[i])
  {
    if s != [] && IsSpace(s[0]) {
      TrimStartDropsSpaces(s[1..]);
      assert forall i :: 1 <= i < |s| ==> s[i] == s[1..][i - 1];
    }
  }

  /** Drops the trailing white space: the result is the longest prefix of `s`
      that does not end with a space. */
  function TrimEnd(s: string): (r: string)
    ensures |r| <= |s|
  {
    if s != [] && IsSpace(s[|s| - 1]) then TrimEnd(s[..|s| - 1]) else s
  }

  /** What `TrimEnd` keeps is a prefix that does not end with a space. */
  lemma {:induction false} TrimEndPrefix(s: string)
    ensures TrimEnd(s) == s[..|TrimEnd(s)|]
    ensures TrimEnd(s) == [] || !IsSpace(TrimEnd(s)[|TrimEnd(s)| - 1])
  {
    if s != [] && IsSpace(s[|s| - 1]) {
      TrimEndPrefix(s[..|s| - 1]);
    }
  }

  /** What `TrimEnd` drops is white space only. */
  lemma {:induction false} TrimEndDropsSpaces(s: string)
    ensures forall i :: |TrimEnd(s)| <= i < |s| ==> IsSpace(s[i])
  {
    if s != [] && IsSpace(s[|s| - 1]) {
      TrimEndDropsSpaces(s[..|s| - 1]);
    }
  }

  /** `s.trim()` */
  function Trim(s: string): string {
    TrimEnd(TrimStart(s))
  }

  /** A string with no white space at either end is left as it is by `trim`,
      and every string `trim` returns is of that kind. */
  lemma TrimFixesTrimmed(s: string)
    ensures Trim(Trim(s)) == Trim(s)
    ensures (s == [] || (!IsSpace(s[0]) && !IsSpace(s[|s| - 1]))) ==> Trim(s) == s
  {
    var t := TrimStart(s);
    var r := TrimEnd(t);
    TrimStartSuffix(s);
    TrimEndPrefix(t);
    assert r == [] || (!IsSpace(r[0]) && !IsSpace(r[|r| - 1])) by {
      if r != [] { assert r[0] == t[0]; }
    }
  }

  /** Helper: a leading space does not survive `trim`. */
  lemma TrimSkipsSpace(c: char, s: string)
    requires IsSpace(c)
    ensures Trim([c] + s) == Trim(s)
  {
    assert ([c] + s)[1..] == s;
  }

  /** `s.split(sep)` for a one-character separator: the pieces between the
      separators, in order; an empty string gives one empty piece. */
  function Split(s: string, sep: char): (pieces: seq<string>)
    ensures |pieces| >= 1
    ensures forall k :: 0 <= k < |pieces| ==> sep !in pieces[k]
  {
    if s == [] then [[]]
    else
      var rest := Split(s[1..], sep);
      if s[0] == sep then [[]] + rest
      else [[s[0]] + rest[0]] + rest[1..]
  }

  /** `pieces.join(sep)` */
  function Join(pieces: seq<string>, sep: char): string
    requires |pieces| >= 1
  {
    if |pieces| == 1 then pieces[0] else pieces[0] + [sep] + Join(pieces[1..], sep)
  }

  /** Splitting loses nothing: joining the pieces back gives the input. */
  lemma {:induction false} JoinSplit(s: string, sep: char)
    ensures Join(Split(s, sep), sep) == s
  {
    if s != [] {
      var rest := Split(s[1..], sep);
      JoinSplit(s[1..], sep);
      if s[0] != sep {
        var first := [s[0]] + rest[0];
        var pieces := [first] + rest[1..];
        if |rest| > 1 {
          assert pieces[1..] == rest[1..];
          assert Join(pieces, sep) == [s[0]] + (rest[0] + [sep] + Join(rest[1..], sep));
        }
      } else {
        assert ([[]] + rest)[1..] == rest;
      }
    }
  }

  /** Splitting distributes over a separator: the pieces of `s + sep + t` are
      the pieces of `s` followed by the pieces of `t`. */
  lemma {:induction false} SplitAppend(s: string, t: string, sep: char)
    ensures Split(s + [sep] + t, sep) == Split(s, sep) + Split(t, sep)
  {
    var u := s + [sep] + t;
    if s == [] {
      assert u[1..] == t;
    } else {
      assert u[1..] == s[1..] + [sep] + t;
      SplitAppend(s[1..], t, sep);
    }
  }

  /** The value of a digit character in bases up to 36 (`0`-`9`, `a`-`z`,
      `A`-`Z`); 36 for every other character, which is a digit in no base. */
  function DigitValue(c: char): (d: nat)
    ensures d <= 36
  {
    if '0' <= c <= '9' then c as int - '0' as int
    else if 'a' <= c <= 'z' then c as int - 'a' as int + 10
    else if 'A' <= c <= 'Z' then c as int - 'A' as int + 10
    else 36
  }

  /** Helper: a decimal digit is neither white space nor a sign. */
  lemma DigitIsNotSpace(c: char)
    requires DigitValue(c) < 10
    ensures '0' <= c <= '9'
    ensures !IsSpace(c) && c != '-' && c != '+'
  {
  }

  /** The length of the longest prefix of `s` made of digits of `radix`. */
  function DigitPrefixLength(s: string, radix: nat): (k: nat)
    ensures k <= |s|
    ensures k == |s| || DigitValue(s[k]) >= radix
  {
    if s == [] || DigitValue(s[0]) >= radix then 0
    else 1 + DigitPrefixLength(s[1..], radix)
  }

  /** The value of a string of digits, most significant first. */
  function DigitsValue(s: string, radix: nat): int {
    if s == [] then 0
    else DigitsValue(s[..|s| - 1], radix) * radix + DigitValue(s[|s| - 1])
  }

  /** `parseInt(s)` with no radix argument: leading white space is skipped, an
      optional sign is read, a `0x`/`0X` prefix switches to base 16, and the
      longest run of digits that follows is the value; no digit at all gives
      NaN. */
  function ParseInt(s: string): Num {
    ParseSigned(TrimStart(s))
  }

  /** `parseInt` after the white space: the sign. */
  function ParseSigned(t: string): Num {
    if t != [] && t[0] == '-' then Negate(ParseRadix(t[1..]))
    else if t != [] && t[0] == '+' then ParseRadix(t[1..])
    else ParseRadix(t)
  }

  function Negate(n: Num): Num {
    if n.Int? then Int(-n.value) else NaN
  }

  /** `parseInt` after the sign: the `0x` prefix chooses the base. */
  function ParseRadix(u: string): Num {
    if |u| >= 2 && u[0] == '0' && (u[1] == 'x' || u[1] == 'X') then ParseDigits(u[2..], 16)
    else ParseDigits(u, 10)
  }

  /** `parseInt` after the prefix: the leading run of digits, if any. */
  function ParseDigits(w: string, radix: nat): Num {
    var k := DigitPrefixLength(w, radix);
    if k == 0 then NaN else Int(DigitsValue(w[..k], radix))
  }

  /** `x || d` applied to a parsed number: NaN and 0 are falsy and give `d`. */
  function OrDefault(n: Num, d: int): int {
    if n.Int? && n.value != 0 then n.value else d
  }

  /** The falsy default never yields 0 when the default is not 0, and never
      replaces a number other than 0. */
  lemma OrDefaultNonZero(n: Num, d: int)
    requires d != 0
    ensures OrDefault(n, d) != 0
    ensures OrDefault(n, d) == d <==> (n.NaN? || n.value == 0 || n.value == d)
  {
  }

  /** `Math.round(a / b)` for a positive `b`: the integer nearest to `a / b`,
      a half rounded towards plus infinity. */
  function RoundDiv(a: int, b: int): (q: int)
    requires b > 0
    ensures 2 * b * q - b <= 2 * a < 2 * b * q + b
  {
    var q := (2 * a + b) / (2 * b);
    assert 2 * b * q <= 2 * a + b < 2 * b * q + 2 * b by {
      DivBounds(2 * a + b, 2 * b);
    }
    q
  }

  /** Helper: floor division brackets its dividend. */
  lemma DivBounds(x: int, y: int)
    requires y > 0
    ensures y * (x / y) <= x < y * (x / y) + y
  {
  }

  /** Rounding is determined by its contract: there is one nearest integer. */
  lemma RoundDivUnique(a: int, b: int, q: int)
    requires b > 0
    requires 2 * b * q - b <= 2 * a < 2 * b * q + b
    ensures q == RoundDiv(a, b)
  {
    var r := RoundDiv(a, b);
    if q < r {
      MulLe(2 * b, q + 1, r);
    } else if q > r {
      MulLe(2 * b, r + 1, q);
    }
  }

  /** Helper: multiplying by a positive number keeps the order. */
  lemma MulLe(k: int, x: int, y: int)
    requires k > 0 && x <= y
    ensures k * x <= k * y
  {
  }

  /** The digit character of `d`. */
  function DigitChar(d: nat): (c: char)
    requires d < 10
    ensures DigitValue(c) == d
  {
    ('0' as int + d) as char
  }

  /** The decimal numeral of `n`, as `String(n)` writes it. */
  function Decimal(n: nat): (s: string)
    ensures |s| >= 1
    ensures DigitValue(s[0]) < 10
    ensures |s| >= 2 ==> s[0] != '0'
  {
    if n < 10 then [DigitChar(n)] else Decimal(n / 10) + [DigitChar(n % 10)]
  }

  /** A numeral is made of decimal digits only. */
  lemma {:induction false} DecimalDigits(n: nat)
    ensures forall i :: 0 <= i < |Decimal(n)| ==> DigitValue(Decimal(n)[i]) < 10
  {
    if n >= 10 {
      DecimalDigits(n / 10);
      assert Decimal(n) == Decimal(n / 10) + [DigitChar(n % 10)];
    }
  }

  /** Helper: a run of digits followed by more text. */
  lemma {:induction false} DigitPrefixAppend(s: string, t: string)
    requires forall i :: 0 <= i < |s| ==> DigitValue(s[i]) < 10
    ensures DigitPrefixLength(s + t, 10) == |s| + DigitPrefixLength(t, 10)
  {
    if s != [] {
      assert (s + t)[0] == s[0];
      assert (s + t)[1..] == s[1..] + t;
      DigitPrefixAppend(s[1..], t);
    } else {
      assert s + t == t;
    }
  }

  /** Reading the digits of a numeral back gives the number. */
  lemma {:induction false} DecimalValue(n: nat)
    ensures DigitsValue(Decimal(n), 10) == n
  {
    var s := Decimal(n);
    if n >= 10 {
      DecimalValue(n / 10);
      assert s[..|s| - 1] == Decimal(n / 10);
    }
  }

  /** Helper: the digit run of a numeral followed by a non-digit. */
  lemma DecimalRead(n: nat, rest: string)
    requires rest == [] || DigitValue(rest[0]) >= 10
    ensures ParseDigits(Decimal(n) + rest, 10) == Int(n)
  {
    var s := Decimal(n);
    DecimalDigits(n);
    DigitPrefixAppend(s, rest);
    assert (s + rest)[..|s|] == s;
    DecimalValue(n);
  }

  /** Helper: `parseInt` of text that starts with a decimal digit, with or
      without a minus sign in front. */
  lemma ParseFromDigit(t: string, v: int)
    requires t != [] && DigitValue(t[0]) < 10 && ParseRadix(t) == Int(v)
    ensures ParseInt(t) == Int(v) && ParseInt("-" + t) == Int(-v)
  {
    DigitIsNotSpace(t[0]);
    assert TrimStart(t) == t;
    var m := "-" + t;
    assert m[0] == '-' && m[1..] == t;
    assert TrimStart(m) == m;
  }

  /** `parseInt` reads back the numeral of every natural number, and stops at
      the first character that is not a digit: `parseInt("12abc")` is 12. */
  lemma ParseIntDecimal(n: nat, rest: string)
    requires rest == [] || DigitValue(rest[0]) >= 10
    requires n > 0 || rest == [] || (rest[0] != 'x' && rest[0] != 'X')
    ensures ParseInt(Decimal(n) + rest) == Int(n)
    ensures ParseInt("-" + (Decimal(n) + rest)) == Int(-(n as int))
  {
    var s := Decimal(n);
    var t := s + rest;
    DecimalRead(n, rest);
    assert t[0] == s[0];
    assert ParseRadix(t) == Int(n) by {
      if |s| < 2 && |t| >= 2 { assert t[1] == rest[0]; }
    }
    ParseFromDigit(t, n);
  }

  /** A numeral on its own: `parseInt` reads it back, `trim` leaves it as it
      is, and it holds no character other than digits. */
  lemma NumeralFacts(n: nat)
    ensures ParseInt(Decimal(n)) == Int(n)
    ensures Trim(Decimal(n)) == Decimal(n)
    ensures forall c :: DigitValue(c) >= 10 ==> c !in Decimal(n)
  {
    var text := Decimal(n);
    assert ParseInt(text) == Int(n) by {
      ParseIntDecimal(n, []);
      assert text + [] == text;
    }
    assert Trim(text) == text by {
      DecimalDigits(n);
      DigitIsNotSpace(text[0]);
      DigitIsNotSpace(text[|text| - 1]);
      TrimFixesTrimmed(text);
    }
    DecimalDigits(n);
  }
}
