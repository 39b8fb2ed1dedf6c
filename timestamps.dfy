/**
 * Ticket timestamps as pandas holds them after `pd.to_datetime`: a calendar
 * date and a time of day in nanoseconds, with the date's ISO text form.
 */
module Timestamps {
  import opened Options

  const NanosPerDay: int := 86_400_000_000_000

  /** Python's `datetime.date` admits years 1 to 9999. */
  type Year = y: int | 1 <= y <= 9999 witness 1
  type Month = m: int | 1 <= m <= 12 witness 1
  type DayOfMonth = d: int | 1 <= d <= 31 witness 1
  type TimeOfDay = t: int | 0 <= t < NanosPerDay witness 0

  datatype Date = Date(year: Year, month: Month, day: DayOfMonth)

  /** A pandas `Timestamp`; `date` is what its `.date()` returns. */
  datatype Timestamp = Timestamp(date: Date, time: TimeOfDay)

  /** `pd.to_datetime` of a plain date: that date at midnight. */
  function Midnight(d: Date): (t: Timestamp)
    ensures t.date == d && forall u: Timestamp :: u.date == d ==> NotAfter(t, u)
  {
    Timestamp(d, 0)
  }

  /** Calendar order on dates. */
  predicate DateNotAfter(a: Date, b: Date) {
    || a.year < b.year
    || (a.year == b.year && a.month < b.month)
    || (a.year == b.year && a.month == b.month && a.day <= b.day)
  }

  /** Chronological order on timestamps: by date, then by time of day. */
  predicate NotAfter(a: Timestamp, b: Timestamp) {
    if a.date == b.date then a.time <= b.time else DateNotAfter(a.date, b.date)
  }

  /** `NotAfter` is a total order, so minima and maxima of ticket dates are well defined. */
  lemma NotAfterIsTotalOrder(a: Timestamp, b: Timestamp, c: Timestamp)
    ensures NotAfter(a, a)
    ensures NotAfter(a, b) || NotAfter(b, a)
    ensures NotAfter(a, b) && NotAfter(b, a) ==> a == b
    ensures NotAfter(a, b) && NotAfter(b, c) ==> NotAfter(a, c)
  {
  }

  function DigitChar(n: int): (c: char)
    requires 0 <= n <= 9
    ensures '0' <= c <= '9' && c as int - '0' as int == n
  {
    ('0' as int + n) as char
  }

  /** `n` written in exactly `width` decimal digits, with leading zeros (`%0*d`). */
  function Padded(n: nat, width: nat): (s: string)
    requires n < Power10(width)
    ensures |s| == width && forall k :: 0 <= k < |s| ==> '0' <= s[k] <= '9'
  {
    if width == 0 then "" else Padded(n / 10, width - 1) + [DigitChar(n % 10)]
  }

  function Power10(k: nat): (p: nat)
    ensures p >= 1
  {
    if k == 0 then 1 else 10 * Power10(k - 1)
  }

  /** The value of a string of decimal digits, or None if some character is not a digit. */
  function DigitsValue(s: string): (v: Option<nat>)
    ensures v.Some? ==> v.value < Power10(|s|)
  {
    if s == [] then Some(0)
    else if !('0' <= s[|s| - 1] <= '9') then None
    else match DigitsValue(s[..|s| - 1])
      case None => None
      case Some(high) => Some(high * 10 + (s[|s| - 1] as int - '0' as int))
  }

  /** Reading back a zero-padded number gives the number. */
  lemma {:induction false} PaddedRoundTrip(n: nat, width: nat)
    requires n < Power10(width)
    ensures DigitsValue(Padded(n, width)) == Some(n)
  {
    if width > 0 {
      var q, d := n / 10, n % 10;
      assert Power10(width) == 10 * Power10(width - 1);
      LastDigit(n, Power10(width - 1));
      PaddedRoundTrip(q, width - 1);
      var s := Padded(n, width);
      assert s == Padded(q, width - 1) + [DigitChar(d)];
      assert s[..|s| - 1] == Padded(q, width - 1);
      assert s[|s| - 1] as int - '0' as int == d;
      assert DigitsValue(s) == Some(q * 10 + d);
    }
  }

  /** Cutting the last decimal digit off a number below `10 * p` leaves one below `p`. */
  lemma LastDigit(n: nat, p: nat)
    requires n < 10 * p
    ensures n == n / 10 * 10 + n % 10 && n / 10 < p
  {
  }

  /** `str(date)`, Python's ISO form `YYYY-MM-DD`. */
  function IsoDate(d: Date): (s: string)
    ensures |s| == 10 && s[4] == '-' && s[7] == '-'
  {
    Power10Values();
    Padded(d.year, 4) + "-" + Padded(d.month, 2) + "-" + Padded(d.day, 2)
  }

  lemma Power10Values()
    ensures Power10(2) == 100 && Power10(4) == 10000
  {
    assert Power10(1) == 10;
    assert Power10(3) == 1000;
  }

  /** Reads a `YYYY-MM-DD` text back into a date; None if it is not one. */
  function ParseIsoDate(s: string): (r: Option<Date>)
    ensures r.Some? ==> |s| == 10
  {
    if |s| != 10 || s[4] != '-' || s[7] != '-' then None
    else match (DigitsValue(s[..4]), DigitsValue(s[5..7]), DigitsValue(s[8..]))
      case (Some(y), Some(m), Some(d)) =>
        if 1 <= y <= 9999 && 1 <= m <= 12 && 1 <= d <= 31 then Some(Date(y, m, d)) else None
      case _ => None
  }

  /** The ISO text of a date identifies it. */
  lemma IsoDateRoundTrip(d: Date)
    ensures ParseIsoDate(IsoDate(d)) == Some(d)
  {
    Power10Values();
    var s := IsoDate(d);
    assert s[..4] == Padded(d.year, 4);
    assert s[5..7] == Padded(d.month, 2);
    assert s[8..] == Padded(d.day, 2);
    PaddedRoundTrip(d.year, 4);
    PaddedRoundTrip(d.month, 2);
    PaddedRoundTrip(d.day, 2);
  }

  /** Two dates with the same ISO text are the same date. */
  lemma IsoDateInjective(a: Date, b: Date)
    ensures IsoDate(a) == IsoDate(b) <==> a == b
  {
    IsoDateRoundTrip(a);
    IsoDateRoundTrip(b);
  }
}
