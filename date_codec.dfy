/**
 * The compact capture date `YYYYMMDDhhmmss`: reading it into a year offset
 * from 1996, a month and a day (dateToRange), and writing it for the
 * tooltip as `DD MM YYYY` (formatDate).
 */
module DateCodec {
  import opened JsText

  /** The first year of the timeline; year offsets count from it. */
  const BaseYear: nat := 1996

  /** A capture date: 14 decimal digits, `YYYYMMDDhhmmss`. */
  predicate IsDate(date: string) { |date| == 14 && AllDigits(date) }

  /** The parsed date: years since 1996, month and day as written. */
  datatype TimeRange = TimeRange(yr: int, mn: nat, day: nat)
  {
    /** Months since January 1996 (January 1996 is 0). */
    function Months(): int
    {
      yr * 12 + mn - 1
    }
  }

  /** dateToRange: characters 0-3 less 1996, characters 4-5 and characters 6-7, each read by `parseInt`. */
  function DateToRange(date: string): (t: TimeRange)
    requires IsDate(date)
    ensures 0 <= t.yr + BaseYear < 10000 && t.mn < 100 && t.day < 100
  {
    TimeRange(ParseDigits(date[..4]) - BaseYear, ParseDigits(date[4..6]), ParseDigits(date[6..8]))
  }

  /** A number below 10 gets a leading `'0'`; any other is written as it is. */
  function ZeroPad(n: nat): (s: string)
    ensures AllDigits(s)
  {
    if n < 10 then "0" + NatToString(n) else NatToString(n)
  }

  /** `DD MM YYYY`, for the tooltip. */
  function FormatDate(date: string): (s: string)
    requires IsDate(date)
  {
    var t := DateToRange(date);
    ZeroPad(t.day) + " " + ZeroPad(t.mn) + " " + NatToString(t.yr + BaseYear)
  }

  /** Months since January 1996 (January 1996 is 0). */
  function MonthIndex(date: string): int
    requires IsDate(date)
  {
    DateToRange(date).Months()
  }

  /** A date whose year has four significant digits and whose month and day are in range. */
  predicate WellFormedDate(date: string)
  {
    && IsDate(date)
    && date[0] != '0'
    && 1 <= DateToRange(date).mn <= 12
    && 1 <= DateToRange(date).day <= 31
  }

  /** Zero-padding a two-digit field reproduces the field. */
  lemma ZeroPadOfDigits(s: string)
    requires |s| == 2 && AllDigits(s)
    ensures ZeroPad(ParseDigits(s)) == s
  {
    var v := ParseDigits(s);
    LeadingDigit(s);
    assert s[1..][..0] == [];
    assert ParseDigits(s[1..]) == DigitValue(s[1]);
    DigitRoundTrip(s[1]);
    if v < 10 {
      assert DigitValue(s[0]) == 0;
      assert s == "0" + [s[1]];
    } else {
      NatToStringOfDigits(s);
    }
  }

  /** A number below 100, zero-padded, is two digits that read back as the number. */
  lemma ParseZeroPad(n: nat)
    requires n < 100
    ensures |ZeroPad(n)| == 2 && ParseDigits(ZeroPad(n)) == n
  {
    ParseNatToString(n);
    if n < 10 {
      ParseConcat("0", NatToString(n));
      assert "0"[..0] == [];
    } else {
      Pow10Values();
      NatToStringLength(n, 2);
    }
  }

  /**
   * The round trip of the tooltip date: for a date with a four-digit year,
   * formatDate writes day, month and year exactly as they appear in the date.
   */
  lemma FormatDateLayout(date: string)
    requires IsDate(date) && date[0] != '0'
    ensures FormatDate(date) == date[6..8] + " " + date[4..6] + " " + date[..4]
  {
    ZeroPadOfDigits(date[6..8]);
    ZeroPadOfDigits(date[4..6]);
    assert date[..4][0] == date[0];
    NatToStringOfDigits(date[..4]);
  }

  /**
   * The other direction: a date written from a four-digit year, a month and
   * a day (zero-padded) and any clock time parses back to the same fields.
   */
  lemma ParseWrittenDate(year: nat, month: nat, day: nat, clock: string)
    requires 1000 <= year < 10000 && month < 100 && day < 100
    requires |clock| == 6 && AllDigits(clock)
    ensures IsDate(NatToString(year) + ZeroPad(month) + ZeroPad(day) + clock)
    ensures DateToRange(NatToString(year) + ZeroPad(month) + ZeroPad(day) + clock)
            == TimeRange(year - BaseYear, month, day)
  {
    var y, m, d := NatToString(year), ZeroPad(month), ZeroPad(day);
    Pow10Values();
    NatToStringLength(year, 4);
    ParseNatToString(year);
    ParseZeroPad(month);
    ParseZeroPad(day);
    var date := y + m + d + clock;
    assert date[..4] == y;
    assert date[4..6] == m;
    assert date[6..8] == d;
  }
}
