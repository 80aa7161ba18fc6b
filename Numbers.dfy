/** Decimal numerals as JavaScript converts them: `Number.prototype.toString()`
    on an integer, `parseInt(s, 10)` and `Number(s)`. Numbers are modelled as
    unbounded integers (JavaScript's NaN is `None`). */
module Numbers {
  import opened Common

  predicate IsDigit(c: char)
  {
    '0' <= c <= '9'
  }

  predicate AllDigits(s: string)
  {
    forall i :: 0 <= i < |s| ==> IsDigit(s[i])
  }

  /** The characters JavaScript's string-to-number conversions skip as
      white space: the white-space and line-terminator characters of ECMAScript. */
  predicate IsJsSpace(c: char)
  {
    || c == '\t' || c == '\n' || c == '\U{000B}' || c == '\U{000C}' || c == '\r'
    || c == ' ' || c == '\U{00A0}' || c == '\U{1680}'
    || ('\U{2000}' <= c <= '\U{200A}')
    || c == '\U{2028}' || c == '\U{2029}' || c == '\U{202F}' || c == '\U{205F}'
    || c == '\U{3000}' || c == '\U{FEFF}'
  }

  function DigitChar(d: nat): (c: char)
    requires d < 10
    ensures IsDigit(c)
  {
    ('0' as int + d) as char
  }

  function DigitValue(c: char): (d: nat)
    requires IsDigit(c)
    ensures d < 10 && DigitChar(d) == c
  {
    c as int - '0' as int
  }

  /** `n.toString()` for a non-negative integer: its digits, most significant first */
  function NatToString(n: nat): (s: string)
    ensures |s| > 0 && AllDigits(s)
    ensures n >= 10 ==> s[0] != '0'
  {
    if n < 10 then [DigitChar(n)] else NatToString(n / 10) + [DigitChar(n % 10)]
  }

  /** `n.toString()` for an integer */
  function IntToString(n: int): (s: string)
    ensures |s| > 0
    ensures n < 0 <==> s[0] == '-'
  {
    if n < 0 then "-" + NatToString(-n) else NatToString(n)
  }

  /** The value of a string of decimal digits (the empty string has value 0) */
  function DigitsValue(s: string): nat
    requires AllDigits(s)
  {
    if |s| == 0 then 0 else DigitsValue(s[..|s| - 1]) * 10 + DigitValue(s[|s| - 1])
  }

  function Pow10(w: nat): (p: nat)
    ensures p >= 1
  {
    if w == 0 then 1 else 10 * Pow10(w - 1)
  }

  /** The last `w` decimal digits of `n`, zero-padded on the left: the numeral
      a fixed-width date field holds. */
  function FixedDigits(n: nat, w: nat): (s: string)
    ensures |s| == w && AllDigits(s)
  {
    if w == 0 then [] else FixedDigits(n / 10, w - 1) + [DigitChar(n % 10)]
  }

  /** A number below 10^w is read back from its w-digit numeral. */
  lemma {:induction false} FixedDigitsValue(n: nat, w: nat)
    requires n < Pow10(w)
    ensures DigitsValue(FixedDigits(n, w)) == n
  {
    if w > 0 {
      var s := FixedDigits(n, w);
      assert s[..w - 1] == FixedDigits(n / 10, w - 1);
      assert s[w - 1] == DigitChar(n % 10);
      FixedDigitsValue(n / 10, w - 1);
    }
  }

  /** Every run of w digits is the w-digit numeral of its value, which is below 10^w. */
  lemma {:induction false} FixedDigitsOfValue(s: string)
    requires AllDigits(s)
    ensures DigitsValue(s) < Pow10(|s|)
    ensures FixedDigits(DigitsValue(s), |s|) == s
  {
    if |s| > 0 {
      var w := |s|;
      var p := s[..w - 1];
      FixedDigitsOfValue(p);
      var v := DigitsValue(s);
      var d := DigitValue(s[w - 1]);
      assert v == DigitsValue(p) * 10 + d;
      assert v / 10 == DigitsValue(p) && v % 10 == d;
      assert v < Pow10(w);
      assert s == p + [s[w - 1]];
    }
  }

  /** The number of white-space characters at the start of `s` */
  function LeadingSpace(s: string): (k: nat)
    ensures k <= |s|
    ensures forall i :: 0 <= i < k ==> IsJsSpace(s[i])
    ensures k < |s| ==> !IsJsSpace(s[k])
  {
    if |s| > 0 && IsJsSpace(s[0]) then 1 + LeadingSpace(s[1..]) else 0
  }

  /** The number of white-space characters at the end of `s` */
  function TrailingSpace(s: string): (k: nat)
    ensures k <= |s|
    ensures forall i :: |s| - k <= i < |s| ==> IsJsSpace(s[i])
    ensures k < |s| ==> !IsJsSpace(s[|s| - 1 - k])
  {
    if |s| > 0 && IsJsSpace(s[|s| - 1]) then 1 + TrailingSpace(s[..|s| - 1]) else 0
  }

  /** The length of the longest prefix of `s` made of decimal digits */
  function DigitPrefix(s: string): (k: nat)
    ensures k <= |s| && AllDigits(s[..k])
    ensures k < |s| ==> !IsDigit(s[k])
  {
    if |s| > 0 && IsDigit(s[0]) then
      var k := 1 + DigitPrefix(s[1..]);
      assert s[..k] == [s[0]] + s[1..][..k - 1];
      k
    else 0
  }

  /** `parseInt(s, 10)`: skip leading white space, read an optional sign and
      the longest run of digits that follows; NaN (`None`) when there is none. */
  function ParseInt(s: string): Option<int>
  {
    var t := s[LeadingSpace(s)..];
    var negative := |t| > 0 && t[0] == '-';
    var u := if |t| > 0 && (t[0] == '-' || t[0] == '+') then t[1..] else t;
    var k := DigitPrefix(u);
    if k == 0 then None
    else if negative then Some(-(DigitsValue(u[..k]) as int))
    else Some(DigitsValue(u[..k]))
  }

  /** `Number(s)` restricted to integer numerals: white space is trimmed at both
      ends, the empty string converts to 0, an optionally signed run of decimal
      digits converts to its value, and every other string is NaN (`None`). */
  function ToNumber(s: string): Option<int>
  {
    var t := s[LeadingSpace(s)..];
    var u := t[..|t| - TrailingSpace(t)];
    var negative := |u| > 0 && u[0] == '-';
    var w := if |u| > 0 && (u[0] == '-' || u[0] == '+') then u[1..] else u;
    if u == [] then Some(0)
    else if w == [] || !AllDigits(w) then None
    else if negative then Some(-(DigitsValue(w) as int))
    else Some(DigitsValue(w))
  }

  /** Reading back the digits `toString` writes gives the number again. */
  lemma {:induction false} DigitsValueOfNatToString(n: nat)
    ensures DigitsValue(NatToString(n)) == n
  {
    if n >= 10 {
      var s := NatToString(n);
      assert s[..|s| - 1] == NatToString(n / 10);
      DigitsValueOfNatToString(n / 10);
    }
  }

  lemma DigitPrefixOfDigits(s: string)
    requires AllDigits(s)
    ensures DigitPrefix(s) == |s|
  {
  }

  /** parseInt(n.toString(), 10) == n for every integer n. */
  lemma ParseIntOfIntToString(n: int)
    ensures ParseInt(IntToString(n)) == Some(n)
  {
    var s := IntToString(n);
    var m: nat := if n < 0 then -n else n;
    var digits := NatToString(m);
    assert !IsJsSpace(s[0]);
    assert LeadingSpace(s) == 0;
    assert s[0..] == s;
    if n < 0 {
      assert s[1..] == digits;
    }
    DigitPrefixOfDigits(digits);
    assert digits[..|digits|] == digits;
    DigitsValueOfNatToString(m);
  }

  /** A non-empty run of digits has no white space to trim at either end. */
  lemma DigitsHaveNoSpace(s: string)
    requires |s| > 0 && AllDigits(s)
    ensures LeadingSpace(s) == 0 && TrailingSpace(s) == 0
  {
    assert IsDigit(s[0]) && IsDigit(s[|s| - 1]);
  }

  /** `Number` of a non-empty run of digits is the value of those digits. */
  lemma ToNumberOfDigits(s: string)
    requires |s| > 0 && AllDigits(s)
    ensures ToNumber(s) == Some(DigitsValue(s))
  {
    DigitsHaveNoSpace(s);
    var t := s[LeadingSpace(s)..];
    assert t == s;
    var u := t[..|t| - TrailingSpace(t)];
    assert u == s;
    assert IsDigit(s[0]);
  }

  /** parseInt("NaN", 10) is NaN: the text has no digits. */
  lemma ParseIntOfNaN()
    ensures ParseInt("NaN") == None
  {
    assert !IsJsSpace('N') && !IsDigit('N');
    assert LeadingSpace("NaN") == 0;
    assert DigitPrefix("NaN") == 0;
  }

  /** Number(n.toString()) == n for every non-negative integer n. */
  lemma ToNumberOfNatToString(n: nat)
    ensures ToNumber(NatToString(n)) == Some(n)
  {
    ToNumberOfDigits(NatToString(n));
    DigitsValueOfNatToString(n);
  }
}
