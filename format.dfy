/// The one typed-slot formatting the model spells out: Go's `%d` verb applied to an
/// int64, which writes the value in base ten with a leading minus sign for negative
/// values and nothing else (no padding, no plus sign, no leading zeros).
module Format {

  /** The values of Go's `int64`. */
  type Int64 = x: int | -0x8000_0000_0000_0000 <= x < 0x8000_0000_0000_0000

  predicate IsDigit(c: char) {
    '0' <= c <= '9'
  }

  function DigitChar(d: nat): (c: char)
    requires d < 10
    ensures IsDigit(c) && c as int - '0' as int == d
  {
    ('0' as int + d) as char
  }

  /** The base-ten digits of `n`, most significant first, without leading zeros. */
  function Digits(n: nat): (s: string)
    ensures |s| >= 1
    ensures forall i :: 0 <= i < |s| ==> IsDigit(s[i])
    ensures |s| > 1 ==> s[0] != '0'
  {
    if n < 10 then [DigitChar(n)] else Digits(n / 10) + [DigitChar(n % 10)]
  }

  /** What `fmt.Sprintf("%d", n)` produces. */
  function Decimal(n: int): (s: string)
    ensures |s| >= 1
    ensures s[0] == '-' <==> n < 0
    ensures forall i :: 0 < i < |s| ==> IsDigit(s[i])
  {
    if n < 0 then "-" + Digits(-n) else Digits(n)
  }

  /** Reads a run of decimal digits back as a number. */
  function DigitsValue(s: string): (n: nat)
    requires forall i :: 0 <= i < |s| ==> IsDigit(s[i])
  {
    if s == [] then 0
    else
      var last := s[|s| - 1];
      assert IsDigit(last);
      10 * DigitsValue(s[..|s| - 1]) + (last as int - '0' as int)
  }

  /** Reads an optionally negative decimal numeral back as a number. */
  function DecimalValue(s: string): int
    requires |s| >= 1 && (s[0] == '-' || IsDigit(s[0]))
    requires forall i :: 0 < i < |s| ==> IsDigit(s[i])
  {
    if s[0] == '-' then -(DigitsValue(s[1..]) as int) else DigitsValue(s)
  }

  lemma {:induction false} DigitsRoundTrip(n: nat)
    ensures DigitsValue(Digits(n)) == n
  {
    if n >= 10 {
      var s := Digits(n);
      assert s[..|s| - 1] == Digits(n / 10);
      DigitsRoundTrip(n / 10);
    }
  }

  /** `%d` loses nothing: the numeral it writes denotes the value it was given. */
  lemma DecimalRoundTrip(n: int)
    ensures DecimalValue(Decimal(n)) == n
  {
    var s := Decimal(n);
    if n < 0 {
      assert s[1..] == Digits(-n);
      DigitsRoundTrip(-n);
    } else {
      DigitsRoundTrip(n);
    }
  }

  /** A minus sign appears only at the front of `%d` text, so wrapped in parentheses, as
      a typed slot writes it, it never holds two in a row. */
  lemma DecimalHasNoDoubleDash(n: int)
    ensures var s := "(" + Decimal(n) + ")";
            forall i :: 0 <= i < |s| - 1 ==> !(s[i] == '-' && s[i + 1] == '-')
  {
    var d := Decimal(n);
    var s := "(" + d + ")";
    forall i | 0 <= i < |s| - 1
      ensures !(s[i] == '-' && s[i + 1] == '-')
    {
      if 1 <= i <= |d| - 1 {
        assert s[i + 1] == d[i] && IsDigit(d[i]);
      }
    }
  }
}
