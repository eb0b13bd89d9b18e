/**
 * The month headings of the zoomed view. Heading `d` names the month `d`
 * months after the window's first month; how it is written depends on how
 * many months the window spans: only Januaries (`Jan 98`) beyond 60 months,
 * initials beyond 42, names beyond 24, name and two-digit year otherwise.
 */
module LabelPolicy {
  import opened JsText
  import opened DateCodec

  /** The `months` table. */
  function MonthName(m: int): (name: string)
    requires 1 <= m <= 12
    ensures |name| == 3
  {
    ["Jan", "Feb", "Mar", "Apr", "May", "Jun", "Jul", "Aug", "Sep", "Oct", "Nov", "Dec"][m - 1]
  }

  /** The `abbrevMonths` table. */
  function MonthInitial(m: int): (initial: string)
    requires 1 <= m <= 12
    ensures |initial| == 1 && initial[0] == MonthName(m)[0]
  {
    ["J", "F", "M", "A", "M", "J", "J", "A", "S", "O", "N", "D"][m - 1]
  }

  /** `(d + startMonth - 1) % 12 + 1`: the calendar month of heading `d`. */
  function HeadingMonth(d: nat, startMonth: int): (m: int)
    requires 1 <= startMonth <= 12
    ensures 1 <= m <= 12
  {
    (d + startMonth - 1) % 12 + 1
  }

  /** `startYear + Math.floor((d + startMonth - 1) / 12)`: the year of heading `d`. */
  function HeadingYear(d: nat, startYear: nat, startMonth: int): (y: nat)
    requires 1 <= startMonth <= 12
    ensures y >= startYear
  {
    startYear + (d + startMonth - 1) / 12
  }

  /** `yr.substr(2, 2)` of the year written as a string. */
  function ShortYear(year: nat): (yy: string)
    ensures |yy| <= 2
  {
    Substr(NatToString(year), 2, 2)
  }

  /** The heading text of offset `d` in a window of `numMonths` months. */
  function HeadingText(d: nat, numMonths: int, startYear: nat, startMonth: int): string
    requires 1 <= startMonth <= 12
  {
    var mon := HeadingMonth(d, startMonth);
    var yr := HeadingYear(d, startYear, startMonth);
    if numMonths > 60 then
      if mon == 1 then MonthName(mon) + " " + ShortYear(yr) else ""
    else if numMonths > 42 then MonthInitial(mon)
    else if numMonths > 24 then MonthName(mon)
    else MonthName(mon) + " " + ShortYear(yr)
  }

  /** Heading `d` names the calendar month `d` months after the start month. */
  lemma HeadingNamesMonth(d: nat, startYear: nat, startMonth: int)
    requires 1 <= startMonth <= 12
    ensures HeadingYear(d, startYear, startMonth) * 12 + HeadingMonth(d, startMonth) - 1
            == startYear * 12 + startMonth - 1 + d
  {
    var k := d + startMonth - 1;
    assert k == (k / 12) * 12 + k % 12;
  }

  /** For a four-digit year, `substr(2, 2)` is the year modulo 100, zero-padded. */
  lemma ShortYearOfFourDigits(year: nat)
    requires 1000 <= year < 10000
    ensures ShortYear(year) == ZeroPad(year % 100)
  {
    var s := NatToString(year);
    Pow10Values();
    NatToStringLength(year, 4);
    ParseNatToString(year);
    var hi, lo := s[..2], s[2..];
    assert s == hi + lo;
    ParseConcat(hi, lo);
    assert |lo| == 2;
    LowDigits(ParseDigits(hi), ParseDigits(lo), year);
    assert ShortYear(year) == lo;
    ZeroPadOfDigits(lo);
  }

  lemma LowDigits(h: nat, l: nat, n: nat)
    requires l < 100 && n == h * 100 + l
    ensures n % 100 == l
  {
  }

  /**
   * The level-of-detail ladder. Beyond 60 months only Januaries are
   * labelled, each `Jan YY`; from 43 to 60 every heading is the month's initial;
   * from 25 to 42 every heading is the three-letter name; at 24 or fewer
   * every heading is the name, a space and the two-digit year.
   */
  lemma LabelLadder(d: nat, numMonths: int, startYear: nat, startMonth: int)
    requires 1 <= startMonth <= 12
    requires 1000 <= HeadingYear(d, startYear, startMonth) < 10000
    ensures var text := HeadingText(d, numMonths, startYear, startMonth);
            var yy := ZeroPad(HeadingYear(d, startYear, startMonth) % 100);
            && (numMonths > 60 ==> (text != "" <==> (d + startMonth - 1) % 12 == 0))
            && (numMonths > 60 && text != "" ==> text == "Jan " + yy)
            && (42 < numMonths <= 60 ==> |text| == 1 && text == MonthInitial(HeadingMonth(d, startMonth)))
            && (24 < numMonths <= 42 ==> |text| == 3 && text == MonthName(HeadingMonth(d, startMonth)))
            && (numMonths <= 24 ==> |text| == 6 && text == MonthName(HeadingMonth(d, startMonth)) + " " + yy)
  {
    var yr := HeadingYear(d, startYear, startMonth);
    ShortYearOfFourDigits(yr);
    ParseZeroPad(yr % 100);
  }

  /** A 61-month window starting in March: offsets 0 to 9 are blank and offset 10 reads `Jan`. */
  lemma JanuaryOnlyExample(startYear: nat, d: nat)
    requires d <= 10
    ensures HeadingText(d, 61, startYear, 3) != "" <==> d == 10
  {
  }
}
