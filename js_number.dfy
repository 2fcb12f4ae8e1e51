/**
 * JavaScript's `parseInt` in base 10, as both client pages apply it to form input:
 * leading white space is skipped, one optional sign is read, and then the longest run
 * of decimal digits; with no digit the result is NaN (here `None`).
 */
module JsNumber {
  import opened Wrappers

  predicate IsDigit(c: char)
  {
    '0' <= c <= '9'
  }

  /**
   * White space `parseInt` skips: the ECMAScript WhiteSpace and LineTerminator characters,
   * that is tab, the line feeds and returns, vertical tab, form feed, the byte-order mark,
   * the line and paragraph separators, and the Unicode space separators (category Zs).
   */
  predicate IsSpace(c: char)
  {
    || c == '\t' || c == '\n' || c == '\U{000B}' || c == '\U{000C}' || c == '\r'
    || c == ' ' || c == '\U{00A0}' || c == '\U{1680}' || '\U{2000}' <= c <= '\U{200A}'
    || c == '\U{2028}' || c == '\U{2029}' || c == '\U{202F}' || c == '\U{205F}' || c == '\U{3000}'
    || c == '\U{FEFF}'
  }

  predicate AllDigits(s: string)
  {
    forall i :: 0 <= i < |s| ==> IsDigit(s[i])
  }

  /** `s` without its leading white space. */
  function TrimStart(s: string): string
  {
    if s != [] && IsSpace(s[0]) then TrimStart(s[1..]) else s
  }

  /** Trimming keeps a suffix of the text, and what is left does not start with white space. */
  lemma {:induction false} TrimStartSuffix(s: string)
    ensures |TrimStart(s)| <= |s| && TrimStart(s) == s[|s| - |TrimStart(s)|..]
    ensures TrimStart(s) == [] || !IsSpace(TrimStart(s)[0])
  {
    if s != [] && IsSpace(s[0]) {
      TrimStartSuffix(s[1..]);
      assert s[1..][|s| - 1 - |TrimStart(s)|..] == s[|s| - |TrimStart(s)|..];
    }
  }

  /** The longest prefix of `s` made of decimal digits. */
  function LeadingDigits(s: string): (r: string)
    ensures AllDigits(r)
  {
    if s != [] && IsDigit(s[0]) then [s[0]] + LeadingDigits(s[1..]) else []
  }

  /** The leading digits are a prefix of the text, followed by a non-digit or by its end. */
  lemma {:induction false} LeadingDigitsMaximal(s: string)
    ensures LeadingDigits(s) <= s
    ensures |LeadingDigits(s)| == |s| || !IsDigit(s[|LeadingDigits(s)|])
  {
    if s != [] && IsDigit(s[0]) {
      LeadingDigitsMaximal(s[1..]);
    }
  }

  function DigitValue(c: char): nat
    requires IsDigit(c)
  {
    (c as int - '0' as int) as nat
  }

  /** The number a run of decimal digits denotes. */
  function DigitsValue(ds: string): nat
    requires AllDigits(ds)
  {
    if ds == [] then 0 else DigitsValue(ds[..|ds| - 1]) * 10 + DigitValue(ds[|ds| - 1])
  }

  /** What follows the optional sign. */
  function Unsigned(t: string): (r: string)
    ensures t != [] && (t[0] == '-' || t[0] == '+') ==> r == t[1..]
    ensures !(t != [] && (t[0] == '-' || t[0] == '+')) ==> r == t
  {
    if t != [] && (t[0] == '-' || t[0] == '+') then t[1..] else t
  }

  /** The value of text that has no leading white space: an optional sign, then digits. */
  function SignedValue(t: string): Option<int>
  {
    var ds := LeadingDigits(Unsigned(t));
    if ds == [] then None
    else if t[0] == '-' then Some(-(DigitsValue(ds) as int))
    else Some(DigitsValue(ds))
  }

  /** `parseInt(s)`, with NaN as `None`. */
  function ParseInt(s: string): Option<int>
  {
    SignedValue(TrimStart(s))
  }

  /** The decimal representation of `n`, without leading zeros. */
  function Decimal(n: nat): (r: string)
    ensures r != [] && AllDigits(r)
  {
    var d := ['0' + (n % 10) as char];
    if n < 10 then d else Decimal(n / 10) + d
  }

  lemma {:induction false} DecimalValue(n: nat)
    ensures DigitsValue(Decimal(n)) == n
  {
    if n >= 10 {
      DecimalValue(n / 10);
      var r := Decimal(n);
      assert r[..|r| - 1] == Decimal(n / 10);
    }
  }

  lemma {:induction false} LeadingDigitsOf(ds: string, rest: string)
    requires AllDigits(ds)
    requires rest == [] || !IsDigit(rest[0])
    ensures LeadingDigits(ds + rest) == ds
  {
    if ds != [] {
      assert (ds + rest)[1..] == ds[1..] + rest;
      LeadingDigitsOf(ds[1..], rest);
    } else {
      assert ds + rest == rest;
    }
  }

  /** Text that does not start with white space is not trimmed. */
  lemma TrimStartNoSpace(t: string)
    requires t != [] && !IsSpace(t[0])
    ensures TrimStart(t) == t
  {
  }

  /** A string that starts with a digit has a non-empty run of leading digits. */
  lemma LeadingDigitsNonEmpty(s: string)
    requires s != [] && IsDigit(s[0])
    ensures LeadingDigits(s) != []
  {
  }

  /** After a minus sign, the digits that follow are read and negated. */
  lemma SignedValueMinus(t: string)
    requires t != [] && t[0] == '-' && LeadingDigits(t[1..]) != []
    ensures SignedValue(t) == Some(-(DigitsValue(LeadingDigits(t[1..])) as int))
  {
    assert Unsigned(t) == t[1..];
  }

  /** A string that starts with a digit is read as its leading run of digits. */
  lemma ParseUnsigned(s: string)
    requires s != [] && IsDigit(s[0])
    ensures ParseInt(s) == Some(DigitsValue(LeadingDigits(s)))
  {
    TrimStartNoSpace(s);
    assert Unsigned(s) == s;
    LeadingDigitsNonEmpty(s);
  }

  /** A minus sign followed by a digit negates the leading run of digits. */
  lemma ParseNegative(t: string)
    requires |t| >= 2 && t[0] == '-' && IsDigit(t[1])
    ensures ParseInt(t) == Some(-(DigitsValue(LeadingDigits(t[1..])) as int))
  {
    TrimStartNoSpace(t);
    LeadingDigitsNonEmpty(t[1..]);
    SignedValueMinus(t);
  }

  /** A minus sign put before text that starts with the digits `ds` negates their value. */
  lemma ParseMinus(s: string, ds: string)
    requires s != [] && IsDigit(s[0]) && LeadingDigits(s) == ds
    ensures ParseInt(['-'] + s) == Some(-(DigitsValue(ds) as int))
  {
    var m := ['-'] + s;
    assert m[1..] == s;
    ParseNegative(m);
  }

  /** A run of digits followed by a non-digit is read as the value of the run. */
  lemma ParseIntDigits(ds: string, rest: string)
    requires ds != [] && AllDigits(ds)
    requires rest == [] || !IsDigit(rest[0])
    ensures ParseInt(ds + rest) == Some(DigitsValue(ds))
  {
    var s := ds + rest;
    assert s[0] == ds[0];
    LeadingDigitsOf(ds, rest);
    ParseUnsigned(s);
  }

  /** The same after a minus sign, with the value negated. */
  lemma ParseIntNegativeDigits(ds: string, rest: string)
    requires ds != [] && AllDigits(ds)
    requires rest == [] || !IsDigit(rest[0])
    ensures ParseInt(['-'] + (ds + rest)) == Some(-(DigitsValue(ds) as int))
  {
    LeadingDigitsOf(ds, rest);
    assert (ds + rest)[0] == ds[0];
    ParseMinus(ds + rest, ds);
  }

  /**
   * `parseInt` reads back the decimal representation of any natural number, and stops at
   * the first character that is not a digit (so "12.5" and "12abc" both read as 12).
   */
  lemma ParseIntDecimal(n: nat, rest: string)
    requires rest == [] || !IsDigit(rest[0])
    ensures ParseInt(Decimal(n) + rest) == Some(n)
  {
    ParseIntDigits(Decimal(n), rest);
    DecimalValue(n);
  }

  /** The same with a leading minus sign: "-12" reads as -12. */
  lemma ParseIntNegativeDecimal(n: nat, rest: string)
    requires rest == [] || !IsDigit(rest[0])
    ensures ParseInt(['-'] + (Decimal(n) + rest)) == Some(-(n as int))
  {
    ParseIntNegativeDigits(Decimal(n), rest);
    DecimalValue(n);
  }

  /** Text with no digit after the optional sign, such as the empty string, is NaN. */
  lemma ParseIntNaN(s: string)
    requires s == [] || (!IsDigit(s[0]) && !IsSpace(s[0]) && s[0] != '-' && s[0] != '+')
    ensures ParseInt(s) == None
  {
  }
}
