/** Decimal numbers as QString prints and reads them. */
module Numbers {
  const INT_MIN := -0x8000_0000
  const INT_MAX := 0x7FFF_FFFF

  predicate IsDigit(c: char) {
    '0' <= c <= '9'
  }

  predicate IsNumeral(s: string) {
    s != "" && forall k | 0 <= k < |s| :: IsDigit(s[k])
  }

  function DigitValue(c: char): nat
    requires IsDigit(c)
  {
    c as int - '0' as int
  }

  function Digit(d: nat): (c: char)
    requires d < 10
    ensures IsDigit(c) && DigitValue(c) == d
  {
    ('0' as int + d) as char
  }

  function Digits(n: nat): string {
    if n < 10 then [Digit(n)] else Digits(n / 10) + [Digit(n % 10)]
  }

  // QString::number
  function Number(n: int): string {
    if n < 0 then "-" + Digits(-n) else Digits(n)
  }

  function Value(s: string): nat
    requires forall k | 0 <= k < |s| :: IsDigit(s[k])
  {
    if s == "" then 0 else 10 * Value(s[..|s| - 1]) + DigitValue(s[|s| - 1])
  }

  // QString::toInt: an optional sign and decimal digits within the range of int, else 0.
  function ToInt(s: string): int {
    var signed := s != "" && (s[0] == '-' || s[0] == '+');
    var body := if signed then s[1..] else s;
    if !IsNumeral(body) then 0
    else
      var v: int := if signed && s[0] == '-' then 0 - Value(body) else Value(body);
      if INT_MIN <= v <= INT_MAX then v else 0
  }

  lemma {:induction false} DigitsValue(n: nat)
    ensures IsNumeral(Digits(n)) && Value(Digits(n)) == n
  {
    var s := Digits(n);
    if n < 10 {
      assert s[..0] == "" && s[0] == Digit(n);
      assert Value(s[..0]) == 0;
    } else {
      DigitsValue(n / 10);
      assert s[..|s| - 1] == Digits(n / 10);
    }
  }

  lemma NumberRoundTrip(n: int)
    requires INT_MIN <= n <= INT_MAX
    ensures ToInt(Number(n)) == n
  {
    if n < 0 {
      DigitsValue(-n);
      assert Number(n)[1..] == Digits(-n);
    } else {
      DigitsValue(n);
    }
  }

  /* ---- what is read that is not printed so ---- */

  lemma {:induction false} LeadingZeros(s: string)
    requires IsNumeral(s)
    ensures IsNumeral("0" + s) && Value("0" + s) == Value(s)
    decreases |s|
  {
    var t := "0" + s;
    assert t[..|t| - 1] == "0" + s[..|s| - 1];
    if |s| == 1 {
      assert "0"[..0] == "" && Value("0") == 0;
      assert s[..0] == "";
    } else {
      LeadingZeros(s[..|s| - 1]);
    }
  }

  // A plus sign and a leading zero make no difference.
  lemma PlusAndZero(n: nat)
    requires n <= INT_MAX
    ensures ToInt("+" + Digits(n)) == n && ToInt("0" + Digits(n)) == n
  {
    DigitsValue(n);
    LeadingZeros(Digits(n));
    assert ("+" + Digits(n))[1..] == Digits(n);
  }

  // A number outside the range of int is read as 0.
  lemma OutOfRangeIsZero(n: int)
    requires n < INT_MIN || INT_MAX < n
    ensures ToInt(Number(n)) == 0
  {
    DigitsValue(if n < 0 then -n else n);
    if n < 0 {
      assert Number(n)[1..] == Digits(-n);
    }
  }

  // So is everything else.
  lemma NoNumeralIsZero(s: string)
    requires !IsNumeral(s)
    requires s != "" && (s[0] == '-' || s[0] == '+') ==> !IsNumeral(s[1..])
    ensures ToInt(s) == 0
  {
  }
}
