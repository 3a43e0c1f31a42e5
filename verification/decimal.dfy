/** Printing and parsing decimal integers, as strconv and fmt do it. */
module Decimal {
  import opened Wrappers

  predicate IsDigit(c: char) {
    '0' <= c <= '9'
  }

  function DigitChar(d: nat): (c: char)
    requires d < 10
    ensures IsDigit(c) && DigitValue(c) == d
  {
    '0' + d as char
  }

  function DigitValue(c: char): (d: nat)
    requires IsDigit(c)
    ensures d < 10
  {
    c as int - '0' as int
  }

  predicate AllDigits(s: string) {
    forall i :: 0 <= i < |s| ==> IsDigit(s[i])
  }

  function Digits(n: nat): (s: string)
    ensures s != "" && AllDigits(s)
  {
    if n < 10 then [DigitChar(n)] else Digits(n / 10) + [DigitChar(n % 10)]
  }

  function Value(s: string): nat
    requires AllDigits(s)
  {
    if s == "" then 0 else 10 * Value(s[..|s| - 1]) + DigitValue(s[|s| - 1])
  }

  lemma {:induction false} ValueOfDigits(n: nat)
    ensures Value(Digits(n)) == n
  {
    if n < 10 {
    } else {
      ValueOfDigits(n / 10);
      assert Digits(n)[..|Digits(n)| - 1] == Digits(n / 10);
    }
  }

  /** Digits appended to a number only make it larger: x more of them, at least ten to the x times. */
  lemma {:induction false} ValueGrows(s: string, t: string)
    requires AllDigits(s) && AllDigits(t) && AllDigits(s + t)
    ensures Value(s) <= Value(s + t)
    ensures t != "" ==> 10 * Value(s) <= Value(s + t)
  {
    if t == "" {
      assert s + t == s;
    } else {
      assert (s + t)[..|s + t| - 1] == s + t[..|t| - 1];
      ValueGrows(s, t[..|t| - 1]);
    }
  }

  function Print(n: int): string {
    if n < 0 then "-" + Digits(-n) else Digits(n)
  }

  /** strconv.ParseInt(s, 10, 64): an optional sign, at least one digit and nothing else, within range. */
  function ParseInt64(s: string): (r: Option<int>)
    ensures r.Some? ==> ':' !in s && MIN_INT64 <= r.value <= MAX_INT64
  {
    var signed := s != "" && (s[0] == '-' || s[0] == '+');
    var digits := if signed then s[1..] else s;
    if digits == "" || !AllDigits(digits) then None
    else
      assert s == if signed then [s[0]] + digits else digits;
      var v: int := if signed && s[0] == '-' then 0 - Value(digits) else Value(digits);
      if MIN_INT64 <= v <= MAX_INT64 then Some(v) else None
  }

  /** The digits are decimal, the most significant first, after a minus sign for a negative number. */
  lemma PrintsDecimal(n: nat)
    ensures Print(n) == if n < 10 then ["0123456789"[n]] else Print(n / 10) + ["0123456789"[n % 10]]
    ensures n > 0 ==> Print(0 - n) == "-" + Print(n)
  {
    assert forall d :: 0 <= d < 10 ==> DigitChar(d) == "0123456789"[d];
  }

  /** At least one digit, with at most one sign before them. */
  predicate Numeral(s: string) {
    && s != "" && '0' <= s[|s| - 1] <= '9'
    && forall i :: 0 <= i < |s| ==> '0' <= s[i] <= '9' || (i == 0 && s[i] in "+-")
  }

  lemma ParsesNumerals(s: string)
    ensures ParseInt64(s).Some? ==> Numeral(s)
  {
    if ParseInt64(s).Some? && !IsDigit(s[0]) {
      assert forall i :: 0 < i < |s| ==> s[i] == s[1..][i - 1];
    }
  }

  /** A printed integer parses back to itself exactly when it fits 64 bits. */
  lemma ParseOfPrint(n: int)
    ensures ParseInt64(Print(n)) == if MIN_INT64 <= n <= MAX_INT64 then Some(n) else None
  {
    ValueOfDigits(if n < 0 then -n else n);
    if n < 0 {
      assert Print(n)[1..] == Digits(-n);
    } else {
      assert IsDigit(Print(n)[0]);
    }
  }
}
