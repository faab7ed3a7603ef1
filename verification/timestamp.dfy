/**
 * TimestampInterpreter: `DATParser.parse_date`. An integer strictly between
 * 1,500,000,000 and 2,000,000,000 is read as a Unix time and formatted by the
 * local calendar; anything else, and any conversion that fails, yields the
 * integer's decimal string.
 *
 * The calendar conversion (`datetime.fromtimestamp(..).strftime(..)`) depends
 * on the local time zone, so it is a parameter: `fmt(n, includeTime)` is the
 * formatted date (or date-time), or None when the conversion raises.
 */
module TimestampInterpreter {
  import opened Wrappers

  /** Exclusive bounds of the plausible Unix-time window. */
  const EarliestExclusive: int := 1500000000
  const LatestExclusive: int := 2000000000

  /** The local-calendar formatter: None stands for an exception. */
  type Formatter = (int, bool) -> Option<string>

  predicate IsPlausibleTimestamp(n: int)
  {
    EarliestExclusive < n < LatestExclusive
  }

  predicate IsDigit(c: char)
  {
    '0' <= c <= '9'
  }

  predicate AllDigits(s: string)
  {
    forall i :: 0 <= i < |s| ==> IsDigit(s[i])
  }

  function DigitChar(d: nat): (c: char)
    requires d < 10
    ensures IsDigit(c) && c as int - '0' as int == d
  {
    ('0' as int + d) as char
  }

  /** Decimal digits of a natural number, without leading zeros. */
  function NatToDecimal(n: nat): (s: string)
    ensures |s| >= 1 && AllDigits(s)
    ensures s[0] == '0' ==> n == 0
    decreases n
  {
    if n < 10 then [DigitChar(n)] else NatToDecimal(n / 10) + [DigitChar(n % 10)]
  }

  /** Python's `str(n)` for an int. */
  function DecimalString(n: int): string
  {
    if n < 0 then "-" + NatToDecimal(-n) else NatToDecimal(n)
  }

  /** The value of a string of decimal digits. */
  function DigitsValue(s: string): nat
    requires AllDigits(s)
  {
    if s == [] then 0 else DigitsValue(s[..|s| - 1]) * 10 + (s[|s| - 1] as int - '0' as int)
  }

  /** A reader of optionally signed decimal numerals, the partner of DecimalString. */
  function ParseDecimal(s: string): Option<int>
  {
    if |s| >= 2 && s[0] == '-' && AllDigits(s[1..]) then Some(0 - DigitsValue(s[1..]) as int)
    else if |s| >= 1 && AllDigits(s) then Some(DigitsValue(s))
    else None
  }

  lemma {:induction false} NatDecimalRoundTrip(n: nat)
    ensures DigitsValue(NatToDecimal(n)) == n
    decreases n
  {
    if n >= 10 {
      var s := NatToDecimal(n);
      assert s[..|s| - 1] == NatToDecimal(n / 10);
      NatDecimalRoundTrip(n / 10);
    }
  }

  /** `str(n)` can be read back as n, for every integer. */
  lemma DecimalStringRoundTrip(n: int)
    ensures ParseDecimal(DecimalString(n)) == Some(n)
  {
    if n < 0 {
      var d := NatToDecimal(-n);
      var s := "-" + d;
      assert s[1..] == d;
      assert !IsDigit(s[0]);
      NatDecimalRoundTrip(-n);
      assert ParseDecimal(s) == Some(0 - DigitsValue(d) as int);
    } else {
      var d := NatToDecimal(n);
      assert IsDigit(d[0]);
      NatDecimalRoundTrip(n);
      assert ParseDecimal(d) == Some(DigitsValue(d));
    }
  }


  /** `parse_date(n, include_time)`. */
  function ParseDate(n: int, includeTime: bool, fmt: Formatter): (s: string)
  {
    if IsPlausibleTimestamp(n) then
      match fmt(n, includeTime)
      case Some(formatted) => formatted
      case None => DecimalString(n)
    else
      DecimalString(n)
  }

  /**
   * Outside the window, or when the calendar conversion fails, parse_date
   * returns the decimal string of its input, which reads back as the input.
   */
  lemma ParseDateFallback(n: int, includeTime: bool, fmt: Formatter)
    requires !IsPlausibleTimestamp(n) || fmt(n, includeTime).None?
    ensures ParseDate(n, includeTime, fmt) == DecimalString(n)
    ensures ParseDecimal(ParseDate(n, includeTime, fmt)) == Some(n)
  {
    DecimalStringRoundTrip(n);
  }
}
