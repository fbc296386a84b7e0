/** Decimal integers as text: JavaScript's `parseInt(s, 10)` and the decimal rendering of a number. */
module Numbers {
  import opened Wrappers
  import Text

  predicate IsDigit(c: char) {
    '0' <= c <= '9'
  }

  function DigitValue(c: char): nat
    requires IsDigit(c)
  {
    c as int - '0' as int
  }

  function DigitChar(d: nat): (c: char)
    requires d < 10
    ensures IsDigit(c) && DigitValue(c) == d
  {
    ('0' as int + d) as char
  }

  ghost predicate AllDigits(s: string) {
    forall i :: 0 <= i < |s| ==> IsDigit(s[i])
  }

  /** The longest prefix of `s` made of decimal digits. */
  function DigitPrefix(s: string): (r: string)
    ensures |r| <= |s| && r == s[..|r|]
    ensures AllDigits(r)
    ensures |r| < |s| ==> !IsDigit(s[|r|])
    ensures |r| > 0 <==> |s| > 0 && IsDigit(s[0])
    decreases |s|
  {
    if |s| > 0 && IsDigit(s[0]) then [s[0]] + DigitPrefix(s[1..]) else []
  }

  /** The value of a string of decimal digits, most significant first. */
  function DigitsValue(d: string): nat
    requires AllDigits(d)
    decreases |d|
  {
    if |d| == 0 then 0 else 10 * DigitsValue(d[..|d| - 1]) + DigitValue(d[|d| - 1])
  }

  /** After optional leading whitespace `t` starts with a number: a digit, or a sign then a digit. */
  predicate StartsWithNumber(t: string) {
    (|t| > 0 && IsDigit(t[0])) || (|t| > 1 && (t[0] == '-' || t[0] == '+') && IsDigit(t[1]))
  }

  /** `t` without its leading sign, if it has one. */
  function Unsigned(t: string): string {
    if |t| > 0 && (t[0] == '-' || t[0] == '+') then t[1..] else t
  }

  /** A digit follows the optional sign exactly when `t` starts with a number. */
  lemma DigitsAfterSign(t: string)
    ensures |DigitPrefix(Unsigned(t))| > 0 <==> StartsWithNumber(t)
  {
  }

  /** `parseInt(s, 10)`: skip leading whitespace, read an optional sign and the longest run of
      digits, ignore the rest; `None` stands for `NaN`. */
  function ParseInt(s: string): (r: Option<int>)
    ensures r.None? <==> !StartsWithNumber(Text.TrimStart(s))
  {
    var t := Text.TrimStart(s);
    var negative := |t| > 0 && t[0] == '-';
    var unsigned := Unsigned(t);
    var digits := DigitPrefix(unsigned);
    DigitsAfterSign(t);
    var magnitude: int := if |digits| == 0 then 0 else DigitsValue(digits);
    if |digits| == 0 then None
    else if negative then Some(-magnitude)
    else Some(magnitude)
  }

  /** The decimal rendering of a natural number (`String(n)`). */
  function Decimal(n: nat): (r: string)
    ensures |r| > 0 && AllDigits(r)
    ensures DigitsValue(r) == n
    decreases n
  {
    if n < 10 then [DigitChar(n)]
    else
      var r := Decimal(n / 10) + [DigitChar(n % 10)];
      assert r[..|r| - 1] == Decimal(n / 10);
      r
  }

  /** The decimal rendering of an integer, with a leading minus sign when negative. */
  function IntToString(n: int): (r: string)
    ensures |r| > 0
    ensures n >= 0 ==> AllDigits(r)
    ensures n < 0 ==> r[0] == '-' && AllDigits(r[1..])
  {
    if n < 0 then "-" + Decimal(-n) else Decimal(n)
  }

  /** Text that starts with a digit or a minus sign has no leading whitespace to skip. */
  lemma TrimStartAtDigit(s: string)
    requires |s| > 0 && (IsDigit(s[0]) || s[0] == '-')
    ensures Text.TrimStart(s) == s
  {
    assert !Text.IsSpace(s[0]);
  }

  /** Text whose first character is neither whitespace, a digit nor a sign is `NaN`. */
  lemma ParseIntNonNumeric(s: string)
    requires |s| > 0 && !Text.IsSpace(s[0]) && !IsDigit(s[0]) && s[0] != '-' && s[0] != '+'
    ensures ParseInt(s).None?
  {
    assert Text.TrimStart(s) == s;
  }

  /** A digit string is its own longest digit prefix, whatever non-digit text follows. */
  lemma {:induction false} DigitPrefixOfDigits(d: string, rest: string)
    requires AllDigits(d)
    requires |rest| == 0 || !IsDigit(rest[0])
    ensures DigitPrefix(d + rest) == d
    decreases |d|
  {
    if |d| > 0 {
      DigitPrefixOfDigits(d[1..], rest);
      assert (d + rest)[1..] == d[1..] + rest;
      assert [d[0]] + d[1..] == d;
    } else {
      assert d + rest == rest;
    }
  }

  /** Reading back a rendered number gives the number; text after it is ignored. */
  lemma ParseDecimal(n: nat, rest: string)
    requires |rest| == 0 || !IsDigit(rest[0])
    ensures ParseInt(Decimal(n) + rest) == Some(n)
  {
    var s := Decimal(n) + rest;
    TrimStartAtDigit(s);
    DigitPrefixOfDigits(Decimal(n), rest);
  }

  /** `parseInt(String(n), 10) == n` for every integer. */
  lemma ParseIntToString(n: int)
    ensures ParseInt(IntToString(n)) == Some(n)
  {
    var s := IntToString(n);
    TrimStartAtDigit(s);
    if n < 0 {
      assert s[1..] == Decimal(-n);
      DigitPrefixOfDigits(Decimal(-n), "");
      assert Decimal(-n) + "" == Decimal(-n);
    } else {
      DigitPrefixOfDigits(Decimal(n), "");
      assert Decimal(n) + "" == Decimal(n);
    }
  }
}
