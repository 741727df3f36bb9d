/**
 * JavaScript's two string-to-number conversions as the screens use them:
 * `parseInt(s)` (leading-digit prefix, radix 10 or a `0x` prefix for 16) and
 * `Number(s)` (the whole string must be a numeric literal). Numbers are kept
 * exact: a `real` stands for a finite double.
 */
module JsNumbers {
  import opened Wrappers
  import opened JsStrings

  /** A JavaScript number value. */
  datatype JsNumber = NaN | Finite(value: real) | Infinity(negative: bool)

  /** The value of a digit in bases up to 16; 36 (no digit in any base used here) for other characters. */
  function DigitValue(c: char): nat {
    if '0' <= c <= '9' then c as int - '0' as int
    else if 'a' <= c <= 'f' then c as int - 'a' as int + 10
    else if 'A' <= c <= 'F' then c as int - 'A' as int + 10
    else 36
  }

  predicate IsDigit(c: char, base: nat) {
    DigitValue(c) < base
  }

  predicate AllDigits(s: string, base: nat) {
    forall i :: 0 <= i < |s| ==> IsDigit(s[i], base)
  }

  /** The value of a digit string, most significant digit first. */
  function DigitsValue(ds: string, base: nat): nat {
    if ds == [] then 0
    else DigitsValue(ds[..|ds| - 1], base) * base + DigitValue(ds[|ds| - 1])
  }

  /** The longest prefix of `s` made of digits of `base`. */
  function DigitPrefix(s: string, base: nat): (r: string)
    ensures r <= s && AllDigits(r, base)
    ensures |r| == |s| || !IsDigit(s[|r|], base)
  {
    if |s| > 0 && IsDigit(s[0], base) then [s[0]] + DigitPrefix(s[1..], base) else []
  }

  /**
   * `parseInt(s)` with no radix: skip leading white space, take one optional
   * sign, switch to base 16 after `0x`/`0X`, then read the longest digit
   * prefix; no digit at all is NaN (`None`).
   */
  function ParseInt(s: string): Option<int> {
    var t := TrimStart(s);
    var negative := |t| > 0 && t[0] == '-';
    var u := if |t| > 0 && (t[0] == '-' || t[0] == '+') then t[1..] else t;
    var hex := |u| >= 2 && u[0] == '0' && (u[1] == 'x' || u[1] == 'X');
    var base := if hex then 16 else 10;
    var ds := DigitPrefix(if hex then u[2..] else u, base);
    if ds == [] then None
    else
      var v: int := DigitsValue(ds, base);
      Some(if negative then -v else v)
  }

  /** The first index of a character satisfying `p`. */
  function FindFirst(s: string, p: char -> bool): (r: Option<nat>)
    ensures r.Some? ==> r.value < |s| && p(s[r.value]) && forall i :: 0 <= i < r.value ==> !p(s[i])
    ensures r.None? ==> forall i :: 0 <= i < |s| ==> !p(s[i])
  {
    if s == [] then None
    else if p(s[0]) then Some(0)
    else match FindFirst(s[1..], p)
      case None => None
      case Some(k) => Some(k + 1)
  }

  function Pow10(e: int): (r: real)
    ensures r > 0.0
    decreases if e >= 0 then e else -e
  {
    if e == 0 then 1.0
    else if e > 0 then 10.0 * Pow10(e - 1)
    else Pow10(e + 1) / 10.0
  }

  /** An optionally signed, non-empty run of decimal digits (the exponent of a literal). */
  function SignedInteger(s: string): Option<int> {
    var negative := |s| > 0 && s[0] == '-';
    var ds := if |s| > 0 && (s[0] == '-' || s[0] == '+') then s[1..] else s;
    if ds == [] || !AllDigits(ds, 10) then None
    else
      var v: int := DigitsValue(ds, 10);
      Some(if negative then -v else v)
  }

  /**
   * StrUnsignedDecimalLiteral without `Infinity`: digits with at most one
   * `.`, at least one digit in all, then an optional exponent `e`/`E`.
   */
  function UnsignedDecimal(s: string): Option<real> {
    var e := FindFirst(s, c => c == 'e' || c == 'E');
    var mantissa := if e.Some? then s[..e.value] else s;
    var exponent := if e.Some? then SignedInteger(s[e.value + 1..]) else Some(0);
    var dot := FindFirst(mantissa, c => c == '.');
    var whole := if dot.Some? then mantissa[..dot.value] else mantissa;
    var fraction := if dot.Some? then mantissa[dot.value + 1..] else [];
    if exponent.None? || !AllDigits(whole, 10) || !AllDigits(fraction, 10) || |whole| + |fraction| == 0 then None
    else Some(DigitsValue(whole + fraction, 10) as real * Pow10(exponent.value - |fraction|))
  }

  /** The radix named by the letter after a leading `0` (`0x`, `0o`, `0b`), or 0 for none. */
  function RadixLetter(c: char): nat {
    if c == 'x' || c == 'X' then 16
    else if c == 'o' || c == 'O' then 8
    else if c == 'b' || c == 'B' then 2
    else 0
  }

  /**
   * `Number(s)`: the trimmed string must be empty (0), `Infinity` with an
   * optional sign, an unsigned `0x`/`0o`/`0b` integer, or a signed decimal
   * literal; anything else is NaN.
   */
  function Number(s: string): JsNumber {
    var t := Trim(s);
    if t == "" then Finite(0.0)
    else if t == "Infinity" || t == "+Infinity" then Infinity(false)
    else if t == "-Infinity" then Infinity(true)
    else if |t| >= 2 && t[0] == '0' && RadixLetter(t[1]) != 0 then
      var base := RadixLetter(t[1]);
      if |t| > 2 && AllDigits(t[2..], base) then Finite(DigitsValue(t[2..], base) as real) else NaN
    else
      var negative := t[0] == '-';
      var body := if t[0] == '-' || t[0] == '+' then t[1..] else t;
      match UnsignedDecimal(body)
      case None => NaN
      case Some(v) => Finite(if negative then -v else v)
  }

  /** The decimal numeral of `n`, without leading zeros. */
  function DecimalString(n: nat): (r: string)
    ensures |r| > 0 && AllDigits(r, 10)
  {
    var last := [('0' as int + n % 10) as char];
    if n < 10 then last else DecimalString(n / 10) + last
  }

  lemma {:induction false} DecimalStringValue(n: nat)
    ensures DigitsValue(DecimalString(n), 10) == n
  {
    var s := DecimalString(n);
    if n >= 10 {
      DecimalStringValue(n / 10);
      assert s[..|s| - 1] == DecimalString(n / 10);
    }
  }

  lemma {:induction false} DigitPrefixOfDigits(s: string, base: nat)
    requires AllDigits(s, base)
    ensures DigitPrefix(s, base) == s
  {
    if s != [] {
      DigitPrefixOfDigits(s[1..], base);
    }
  }

  lemma DigitIsNotSpace(c: char)
    requires IsDigit(c, 10)
    ensures '0' <= c <= '9' && !IsSpace(c)
  {
  }

  /** Trimming leaves a non-empty digit string as it is. */
  lemma {:induction false} TrimOfDigits(s: string)
    requires |s| > 0 && AllDigits(s, 10)
    ensures TrimStart(s) == s && Trim(s) == s
  {
    DigitIsNotSpace(s[0]);
    DigitIsNotSpace(s[|s| - 1]);
    assert TrimStart(s) == s;
    assert TrimEnd(s) == s;
  }

  /** `parseInt` of text that starts with a decimal digit and no `0x` reads its leading digits. */
  lemma ParseIntUnsigned(s: string)
    requires |s| > 0 && IsDigit(s[0], 10)
    requires !(|s| >= 2 && s[0] == '0' && (s[1] == 'x' || s[1] == 'X'))
    ensures ParseInt(s) == Some(DigitsValue(DigitPrefix(s, 10), 10))
  {
    DigitIsNotSpace(s[0]);
    assert TrimStart(s) == s;
  }

  /** `parseInt` reads back the numeral of every natural number. */
  lemma {:induction false} ParseIntDecimal(n: nat)
    ensures ParseInt(DecimalString(n)) == Some(n)
  {
    var s := DecimalString(n);
    if |s| >= 2 { DigitIsNotSpace(s[1]); }
    ParseIntUnsigned(s);
    DigitPrefixOfDigits(s, 10);
    DecimalStringValue(n);
  }

  /**
   * `parseInt` stops at the first character that is not a digit; only a
   * lone `0` followed by `x` or `X` is read as a radix prefix instead.
   */
  lemma {:induction false} ParseIntStopsAtNonDigit(n: nat, rest: string)
    requires rest == [] || (!IsDigit(rest[0], 10) && (n != 0 || (rest[0] != 'x' && rest[0] != 'X')))
    ensures ParseInt(DecimalString(n) + rest) == Some(n)
  {
    var d := DecimalString(n);
    var s := d + rest;
    DecimalStringValue(n);
    assert s[0] == d[0];
    if |d| >= 2 {
      DigitIsNotSpace(d[1]);
      assert s[1] == d[1];
    } else if |s| >= 2 {
      assert s[1] == rest[0];
      if n != 0 {
        assert d == [d[0]];
        assert DigitsValue(d, 10) == DigitValue(d[0]);
        assert d[0] != '0';
      }
    }
    ParseIntUnsigned(s);
    DigitPrefixAppend(d, rest);
  }

  /** A lone sign is not a number. */
  lemma LoneSignIsNaN()
    ensures Number("-") == NaN && Number("+") == NaN
  {
    TrimUnchanged("-");
    TrimUnchanged("+");
    assert UnsignedDecimal("") == None;
  }

  lemma {:induction false} DigitPrefixAppend(d: string, rest: string)
    requires AllDigits(d, 10)
    requires rest == [] || !IsDigit(rest[0], 10)
    ensures DigitPrefix(d + rest, 10) == d
  {
    if d != [] {
      assert (d + rest)[1..] == d[1..] + rest;
      DigitPrefixAppend(d[1..], rest);
    }
  }

  /** `parseInt` of blank text is NaN: there is no digit to read. */
  lemma ParseIntBlank(s: string)
    requires Blank(s)
    ensures ParseInt(s) == None
  {
    assert TrimStart(s) == [];
  }

  /** A run of decimal digits is a decimal literal without fraction or exponent. */
  lemma UnsignedDecimalOfDigits(s: string)
    requires |s| > 0 && AllDigits(s, 10)
    ensures UnsignedDecimal(s) == Some(DigitsValue(s, 10) as real)
  {
    forall i | 0 <= i < |s| ensures '0' <= s[i] <= '9' {
      DigitIsNotSpace(s[i]);
    }
    assert FindFirst(s, c => c == 'e' || c == 'E').None?;
    assert FindFirst(s, c => c == '.').None?;
    assert s + [] == s;
  }

  /** `Number` reads back the numeral of every natural number. */
  lemma {:induction false} NumberDecimal(n: nat)
    ensures Number(DecimalString(n)) == Finite(n as real)
  {
    var s := DecimalString(n);
    TrimOfDigits(s);
    DigitIsNotSpace(s[0]);
    if |s| >= 2 {
      DigitIsNotSpace(s[1]);
      assert RadixLetter(s[1]) == 0;
    }
    assert s != "Infinity" && s != "+Infinity" && s != "-Infinity" by {
      assert s[0] != 'I' && s[0] != '+' && s[0] != '-';
    }
    UnsignedDecimalOfDigits(s);
    DecimalStringValue(n);
  }

  /** `Number` of blank text is 0, while `parseInt` of it is NaN. */
  lemma NumberBlank(s: string)
    requires Blank(s)
    ensures Number(s) == Finite(0.0)
  {
  }
}
