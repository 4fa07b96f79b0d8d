/** Python's `int(str)` and `str(int)` on decimal integers. */
module Numbers {
  import opened Wrappers
  import opened Text

  predicate IsDigit(c: char)
  {
    '0' <= c <= '9'
  }

  predicate AllDigits(s: string)
  {
    forall i :: 0 <= i < |s| ==> IsDigit(s[i])
  }

  function DigitValue(c: char): nat
    requires IsDigit(c)
  {
    (c as int) - ('0' as int)
  }

  function DigitChar(d: nat): (c: char)
    requires d < 10
    ensures IsDigit(c) && DigitValue(c) == d
  {
    ('0' as int + d) as char
  }

  /** The value of a string of decimal digits. */
  function DecimalValue(s: string): nat
    requires AllDigits(s)
  {
    if s == [] then 0 else DecimalValue(s[..|s| - 1]) * 10 + DigitValue(s[|s| - 1])
  }

  /**
   * The digit part that `int()` accepts: digits, where a single underscore may
   * stand between two digits.
   */
  predicate DigitGroup(s: string)
  {
    && |s| > 0 && IsDigit(s[0]) && IsDigit(s[|s| - 1])
    && (forall i :: 0 <= i < |s| ==> IsDigit(s[i]) || s[i] == '_')
    && (forall i :: 0 <= i < |s| - 1 ==> NotTwoUnderscores(s, i))
  }

  /** Positions `i` and `i + 1` are not both underscores. */
  predicate NotTwoUnderscores(s: string, i: int)
    requires 0 <= i < |s| - 1
  {
    s[i] != '_' || s[i + 1] != '_'
  }

  function DropUnderscores(s: string): (r: string)
    ensures (forall i :: 0 <= i < |s| ==> IsDigit(s[i]) || s[i] == '_') ==> AllDigits(r)
  {
    if s == [] then []
    else if s[0] == '_' then DropUnderscores(s[1..])
    else [s[0]] + DropUnderscores(s[1..])
  }

  lemma {:induction false} DropUnderscoresOfDigits(s: string)
    requires AllDigits(s)
    ensures DropUnderscores(s) == s
  {
    if s != [] {
      DropUnderscoresOfDigits(s[1..]);
      assert [s[0]] + s[1..] == s;
    }
  }

  function GroupValue(s: string): nat
    requires DigitGroup(s)
  {
    DecimalValue(DropUnderscores(s))
  }

  /**
   * `int(s)` for a `str`: surrounding whitespace is ignored, then an optional sign
   * and a digit group; anything else raises `ValueError` (here `None`).
   */
  function ParseInt(s: string): Option<int>
  {
    ParseSigned(Strip(s))
  }

  /** `int()` on an already stripped text. */
  function ParseSigned(t: string): Option<int>
  {
    if |t| > 0 && (t[0] == '+' || t[0] == '-') then
      if DigitGroup(t[1..]) then
        Some(if t[0] == '-' then -(GroupValue(t[1..]) as int) else GroupValue(t[1..]))
      else None
    else if DigitGroup(t) then Some(GroupValue(t))
    else None
  }

  /** `str(n)` for a natural number. */
  function NatToString(n: nat): (r: string)
    ensures |r| > 0 && AllDigits(r)
  {
    if n < 10 then [DigitChar(n)] else NatToString(n / 10) + [DigitChar(n % 10)]
  }

  /** `str(i)`. */
  function IntToString(i: int): (r: string)
    ensures |r| > 0
    ensures forall k :: 0 <= k < |r| ==> IsDigit(r[k]) || (k == 0 && r[k] == '-')
  {
    if i < 0 then "-" + NatToString(-i) else NatToString(i)
  }

  lemma {:induction false} DecimalValueOfNatToString(n: nat)
    ensures DecimalValue(NatToString(n)) == n
  {
    if n >= 10 {
      var s := NatToString(n);
      DecimalValueOfNatToString(n / 10);
      assert s[..|s| - 1] == NatToString(n / 10);
    }
  }

  lemma GroupValueOfNatToString(n: nat)
    ensures DigitGroup(NatToString(n)) && GroupValue(NatToString(n)) == n
  {
    DropUnderscoresOfDigits(NatToString(n));
    DecimalValueOfNatToString(n);
  }

  lemma StrippedIntToString(i: int)
    ensures Strip(IntToString(i)) == IntToString(i)
  {
    var s := IntToString(i);
    assert Stripped(s) by {
      assert !IsSpace(s[0]) && !IsSpace(s[|s| - 1]);
    }
    StripPadded([], s, []);
    assert [] + s + [] == s;
  }

  lemma ParseSignedOfNonNegative(i: int)
    requires i >= 0
    ensures ParseSigned(IntToString(i)) == Some(i)
  {
    GroupValueOfNatToString(i);
  }

  lemma ParseSignedOfNegative(i: int)
    requires i < 0
    ensures ParseSigned(IntToString(i)) == Some(i)
  {
    var s := IntToString(i);
    assert s[1..] == NatToString(-i);
    GroupValueOfNatToString(-i);
  }

  /** `int(str(i)) == i`. */
  lemma ParseIntOfIntToString(i: int)
    ensures ParseInt(IntToString(i)) == Some(i)
  {
    if i < 0 {
      ParseIntOfNegative(i);
    } else {
      ParseIntOfNat(i);
    }
  }

  lemma {:induction false} ParseIntOfNat(i: int)
    requires i >= 0
    ensures ParseInt(IntToString(i)) == Some(i)
  {
    StrippedIntToString(i);
    ParseSignedOfNonNegative(i);
  }

  lemma {:induction false} ParseIntOfNegative(i: int)
    requires i < 0
    ensures ParseInt(IntToString(i)) == Some(i)
  {
    StrippedIntToString(i);
    ParseSignedOfNegative(i);
  }

  lemma IntToStringInjective(i: int, j: int)
    requires IntToString(i) == IntToString(j)
    ensures i == j
  {
    ParseIntOfIntToString(i);
    ParseIntOfIntToString(j);
  }

  /** A text without any digit is not an integer. */
  lemma ParseIntWithoutDigits(s: string)
    requires forall i :: 0 <= i < |s| ==> !IsDigit(s[i])
    ensures ParseInt(s) == None
  {
    var l := LStrip(s);
    var t := Strip(s);
    LStripSpec(s);
    RStripSpec(l);
    assert t == l[..|t|];
    assert forall k :: 0 <= k < |t| ==> t[k] == s[|s| - |l| + k];
    if |t| > 1 {
      var u := t[1..];
      assert u[0] == t[1] == s[|s| - |l| + 1];
      assert !DigitGroup(u);
    }
    if |t| > 0 {
      assert !IsDigit(t[0]);
    }
  }
}
