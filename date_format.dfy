/** The "yyyyMMdd" rendering of a service date: 4-digit year, 2-digit month, 2-digit day. */
module DateFormat {
  import opened Application

  function Pow10(n: nat): (p: nat)
    ensures p >= 1
  {
    if n == 0 then 1 else 10 * Pow10(n - 1)
  }

  predicate IsDigits(s: string)
  {
    forall i :: 0 <= i < |s| ==> '0' <= s[i] <= '9'
  }

  function DigitChar(d: nat): (c: char)
    requires d < 10
    ensures '0' <= c <= '9'
  {
    ('0' as int + d) as char
  }

  /** The last `width` decimal digits of `n`, zero-padded on the left. */
  function PaddedDecimal(n: nat, width: nat): (s: string)
    ensures |s| == width && IsDigits(s)
  {
    if width == 0 then "" else PaddedDecimal(n / 10, width - 1) + [DigitChar(n % 10)]
  }

  /** The number a string of decimal digits denotes. */
  function DecimalValue(s: string): nat
    requires IsDigits(s)
  {
    if s == [] then 0 else 10 * DecimalValue(s[..|s| - 1]) + (s[|s| - 1] as int - '0' as int)
  }

  /** Padding loses nothing when the number has at most `width` digits. */
  lemma {:induction false} PaddedDecimalRoundTrip(n: nat, width: nat)
    requires n < Pow10(width)
    ensures DecimalValue(PaddedDecimal(n, width)) == n
  {
    if width > 0 {
      var s := PaddedDecimal(n, width);
      assert n / 10 < Pow10(width - 1);
      PaddedDecimalRoundTrip(n / 10, width - 1);
      assert s[..|s| - 1] == PaddedDecimal(n / 10, width - 1);
    }
  }

  /** DateTime.ToString("yyyyMMdd") and TryFormat with the same format string. */
  function Format(d: CalendarDate): (s: string)
    ensures |s| == 8 && IsDigits(s)
  {
    PaddedDecimal(d.year, 4) + PaddedDecimal(d.month, 2) + PaddedDecimal(d.day, 2)
  }

  /** Reads a date back from its eight digits. */
  function Parse(s: string): Date
    requires |s| == 8 && IsDigits(s)
  {
    Date(DecimalValue(s[..4]), DecimalValue(s[4..6]), DecimalValue(s[6..]))
  }

  /** The rendering determines the date: no two dates share a rendering. */
  lemma FormatRoundTrip(d: CalendarDate)
    ensures Parse(Format(d)) == d
  {
    var s := Format(d);
    assert s[..4] == PaddedDecimal(d.year, 4);
    assert s[4..6] == PaddedDecimal(d.month, 2);
    assert s[6..] == PaddedDecimal(d.day, 2);
    assert Pow10(4) == 10000 && Pow10(2) == 100;
    PaddedDecimalRoundTrip(d.year, 4);
    PaddedDecimalRoundTrip(d.month, 2);
    PaddedDecimalRoundTrip(d.day, 2);
  }
}
