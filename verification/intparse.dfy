/** Python's `int(s)` on a string, base 10: optional surrounding whitespace, an optional
    sign, then decimal digits in groups separated by single underscores. */
module IntParse {

  import opened Common

  /** Characters `str.strip()` (and so `int()`) treats as whitespace. */
  predicate IsSpace(c: char)
  {
    || ('\t' <= c <= '\r')
    || ('\U{1c}' <= c <= '\U{1f}')
    || c == ' ' || c == '\U{85}' || c == '\U{a0}' || c == '\U{1680}'
    || ('\U{2000}' <= c <= '\U{200a}')
    || c == '\U{2028}' || c == '\U{2029}' || c == '\U{202f}' || c == '\U{205f}' || c == '\U{3000}'
  }

  predicate IsDigit(c: char)
  {
    '0' <= c <= '9'
  }

  function DigitValue(c: char): (r: nat)
    requires IsDigit(c)
    ensures r < 10
  {
    (c as int) - ('0' as int)
  }

  function DigitChar(d: nat): (c: char)
    requires d < 10
    ensures IsDigit(c) && DigitValue(c) == d
  {
    (('0' as int) + d) as char
  }

  /** `s.strip()`: leading and trailing whitespace removed. */
  function Strip(s: string): (r: string)
    ensures |r| > 0 ==> !IsSpace(r[0]) && !IsSpace(r[|r| - 1])
  {
    StripRight(StripLeft(s))
  }

  function StripLeft(s: string): (r: string)
    ensures |r| > 0 ==> !IsSpace(r[0])
    ensures |r| <= |s|
    decreases |s|
  {
    if |s| > 0 && IsSpace(s[0]) then StripLeft(s[1..]) else s
  }

  function StripRight(s: string): (r: string)
    ensures |r| <= |s|
    ensures |r| > 0 ==> !IsSpace(r[|r| - 1]) && r[0] == s[0]
    decreases |s|
  {
    if |s| > 0 && IsSpace(s[|s| - 1]) then StripRight(s[..|s| - 1]) else s
  }

  /** Digits in groups separated by single underscores, neither first nor last. */
  predicate DigitGroups(s: string)
  {
    |s| > 0 && forall i :: 0 <= i < |s| ==> GroupedAt(s, i)
  }

  /** Position i holds a digit, or an underscore between two digits. */
  predicate GroupedAt(s: string, i: int)
    requires 0 <= i < |s|
  {
    IsDigit(s[i]) || (s[i] == '_' && 0 < i < |s| - 1 && IsDigit(s[i - 1]) && IsDigit(s[i + 1]))
  }

  /** The number the digits of s spell, underscores ignored. */
  function DigitsValue(s: string): nat
    decreases |s|
  {
    if |s| == 0 then 0
    else
      var c := s[|s| - 1];
      if IsDigit(c) then DigitsValue(s[..|s| - 1]) * 10 + DigitValue(c)
      else DigitsValue(s[..|s| - 1])
  }

  /** `int(s)`, or None where Python raises ValueError. */
  function ParseInt(s: string): (r: Option<int>)
  {
    ParseStripped(Strip(s))
  }

  /** `int` on text without surrounding whitespace: an optional sign, then digit groups. */
  function ParseStripped(t: string): (r: Option<int>)
  {
    if |t| > 0 && (t[0] == '-' || t[0] == '+') then
      if DigitGroups(t[1..]) then
        var magnitude: int := DigitsValue(t[1..]);
        Some(if t[0] == '-' then -magnitude else magnitude)
      else None
    else if DigitGroups(t) then Some(DigitsValue(t))
    else None
  }

  /** `str(n)` for a natural number: its decimal digits without leading zeros. */
  function ShowNat(n: nat): (r: string)
    ensures |r| > 0 && forall i :: 0 <= i < |r| ==> IsDigit(r[i])
    decreases n
  {
    if n < 10 then [DigitChar(n)] else ShowNat(n / 10) + [DigitChar(n % 10)]
  }

  /** `str(n)` for an integer. */
  function ShowInt(n: int): (r: string)
    ensures |r| > 0 && (r[0] == '-' || IsDigit(r[0])) && IsDigit(r[|r| - 1])
  {
    if n < 0 then "-" + ShowNat(-n) else ShowNat(n)
  }

  /** The digits ShowNat produces spell back the number. */
  lemma {:induction false} ShowNatValue(n: nat)
    ensures DigitsValue(ShowNat(n)) == n
    decreases n
  {
    if n >= 10 {
      ShowNatValue(n / 10);
      var s := ShowNat(n);
      assert s[..|s| - 1] == ShowNat(n / 10);
    }
  }

  /** A string that begins and ends with a non-space character is its own strip. */
  lemma StripNoSpace(s: string)
    requires |s| > 0 && !IsSpace(s[0]) && !IsSpace(s[|s| - 1])
    ensures Strip(s) == s
  {
  }

  lemma DigitNotSpace(c: char)
    requires IsDigit(c)
    ensures !IsSpace(c)
  {
  }

  /** A non-empty string of digits forms digit groups. */
  lemma AllDigitsGrouped(d: string)
    requires |d| > 0 && forall i :: 0 <= i < |d| ==> IsDigit(d[i])
    ensures DigitGroups(d)
  {
    forall i | 0 <= i < |d| ensures GroupedAt(d, i) {
      assert IsDigit(d[i]);
    }
  }

  /** A string of digits alone is read as the number it spells. */
  lemma ParseDigits(s: string)
    requires |s| > 0 && forall i :: 0 <= i < |s| ==> IsDigit(s[i])
    ensures ParseInt(s) == Some(DigitsValue(s))
  {
    assert Strip(s) == s by {
      DigitNotSpace(s[0]);
      DigitNotSpace(s[|s| - 1]);
      StripNoSpace(s);
    }
    assert DigitGroups(s) by {
      AllDigitsGrouped(s);
    }
    assert s[0] != '-' && s[0] != '+' by {
      assert IsDigit(s[0]);
    }
  }

  /** Text that is its own strip, a minus sign then digit groups, is read as the negated
      number. */
  lemma ParseMinus(s: string)
    requires |s| > 1 && Strip(s) == s && s[0] == '-' && DigitGroups(s[1..])
    ensures ParseInt(s) == Some(-(DigitsValue(s[1..]) as int))
  {
  }

  /** A minus sign followed by digits alone is read as the negated number. */
  lemma ParseNegativeDigits(digits: string)
    requires |digits| > 0 && forall i :: 0 <= i < |digits| ==> IsDigit(digits[i])
    ensures ParseInt("-" + digits) == Some(-(DigitsValue(digits) as int))
  {
    var s := "-" + digits;
    assert s[1..] == digits;
    assert Strip(s) == s by {
      assert s[|s| - 1] == digits[|digits| - 1];
      DigitNotSpace(digits[|digits| - 1]);
      StripNoSpace(s);
    }
    assert DigitGroups(s[1..]) by {
      AllDigitsGrouped(digits);
    }
    ParseMinus(s);
  }

  /** `int(str(n)) == n`: parsing inverts printing. */
  lemma ParseShowInt(n: int)
    ensures ParseInt(ShowInt(n)) == Some(n)
  {
    if n < 0 {
      ParseShowNegative(n);
    } else {
      ParseShowNat(n);
    }
  }

  lemma ParseShowNegative(n: int)
    requires n < 0
    ensures ParseInt(ShowInt(n)) == Some(n)
  {
    var m: nat := -n;
    var digits := ShowNat(m);
    var s := "-" + digits;
    assert ShowInt(n) == s;
    assert ParseInt(s) == Some(-(DigitsValue(digits) as int)) by {
      ParseNegativeDigits(digits);
    }
    assert DigitsValue(digits) == m by {
      ShowNatValue(m);
    }
  }

  lemma ParseShowNat(n: nat)
    ensures ParseInt(ShowInt(n)) == Some(n)
  {
    var s := ShowNat(n);
    assert ShowInt(n) == s;
    assert ParseInt(s) == Some(DigitsValue(s)) by {
      ParseDigits(s);
    }
    assert DigitsValue(s) == n by {
      ShowNatValue(n);
    }
  }
}
