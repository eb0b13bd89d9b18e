/**
 * The zoom engine of showZoom, without the drawing. The brush fractions
 * become rounded month indices (months since January 1996); these give the
 * window's first and last-plus-one months and two 14-character bound
 * strings, and the captures whose date string lies between the bounds are
 * selected. Each selected capture is placed at a sub-month x position,
 * one column per month across the 1320-pixel panel, and each column gets a
 * heading from the label ladder.
 */
module Zoom {
  import opened JsText
  import opened DateCodec
  import opened Categories
  import opened Overview
  import opened LabelPolicy
  import opened Filters

  /** The timeline spans 22 years, drawn 60 pixels a year. */
  const TotalYears: int := 22
  const TotalWidth: int := 1320
  /** Month-grid rectangles are drawn only for windows narrower than this. */
  const GridLimit: int := 36

  /** `Math.round`: the nearest integer, halves rounding up. */
  function Round(x: real): (n: int)
    ensures n as real - 0.5 <= x < n as real + 0.5
  {
    (x + 0.5).Floor
  }

  /**
   * brushed's normalisation of one brush edge: the fraction of the full
   * width from the left margin, raised to 0 when negative and never
   * lowered from above.
   */
  function Normalize(px: real): (f: real)
    ensures f >= 0.0
    ensures px >= MarginLeft as real ==> f * TotalWidth as real == px - MarginLeft as real
    ensures px < MarginLeft as real ==> f == 0.0
  {
    var f := (px - MarginLeft as real) / TotalWidth as real;
    if f < 0.0 then 0.0 else f
  }

  /** Feeding back the pixel of a non-negative fraction gives the fraction; and edges keep their order. */
  lemma NormalizeInverse(f: real, a: real, b: real)
    requires f >= 0.0 && a <= b
    ensures Normalize(MarginLeft as real + f * TotalWidth as real) == f
    ensures Normalize(a) <= Normalize(b)
  {
  }

  /** The calendar window of a zoom: month indices, first month and last-plus-one month. */
  datatype Window = Window(
    startDate: nat, endDate: nat,
    startYear: nat, startMonth: nat,
    endYear: nat, endMonth: nat,
    numMonths: int)

  /** Year and month name the month index, months are 1 to 12, and the span is the difference. */
  predicate WindowInvariant(w: Window)
  {
    && 1 <= w.startMonth <= 12 && 1 <= w.endMonth <= 12
    && (w.startYear - BaseYear) * 12 + w.startMonth - 1 == w.startDate
    && (w.endYear - BaseYear) * 12 + w.endMonth - 1 == w.endDate
    && w.numMonths == w.endDate - w.startDate
  }

  /** The window of brush fractions `startPos` and `endPos` (both at least 0, as brushed leaves them). */
  function WindowOf(startPos: real, endPos: real): (w: Window)
    requires startPos >= 0.0 && endPos >= 0.0
    ensures WindowInvariant(w)
    ensures w.startDate as real - 0.5 <= startPos * (TotalYears * 12) as real < w.startDate as real + 0.5
    ensures w.endDate as real - 0.5 <= endPos * (TotalYears * 12) as real < w.endDate as real + 0.5
  {
    var startDate := Round(startPos * (TotalYears * 12) as real);
    var endDate := Round(endPos * (TotalYears * 12) as real);
    Window(startDate, endDate,
           startDate / 12 + BaseYear, startDate % 12 + 1,
           endDate / 12 + BaseYear, endDate % 12 + 1,
           endDate - startDate)
  }

  /** Brush edges on the panel give a window within the timeline's 22 years, ending no later than January 2018. */
  lemma PanelWindow(startPos: real, endPos: real)
    requires 0.0 <= startPos <= 1.0 && 0.0 <= endPos <= 1.0
    ensures var w := WindowOf(startPos, endPos);
            w.startDate <= TotalYears * 12 && w.endDate <= TotalYears * 12
            && w.startYear <= BaseYear + TotalYears && w.endYear <= BaseYear + TotalYears
  {
    var w := WindowOf(startPos, endPos);
    assert startPos * (TotalYears * 12) as real <= (TotalYears * 12) as real;
    assert endPos * (TotalYears * 12) as real <= (TotalYears * 12) as real;
  }

  /** `year + '' + month (zero-padded) + '00' + '000000'`. */
  function BoundString(year: nat, month: nat): string
  {
    NatToString(year) + ZeroPad(month) + "00" + "000000"
  }

  function StartPoint(w: Window): string { BoundString(w.startYear, w.startMonth) }

  function EndPoint(w: Window): string { BoundString(w.endYear, w.endMonth) }

  /** `d.date >= startPoint && d.date < endPoint`, compared as strings. */
  predicate InWindow(date: string, lo: string, hi: string)
  {
    !JsLess(date, lo) && JsLess(date, hi)
  }

  /**
   * `zoomList`: the captures in the window, in load order, each with
   * `id` set to its position `i` in the full list.
   */
  function ZoomList(captures: seq<Capture>, lo: string, hi: string): (r: seq<Capture>)
    ensures |r| <= |captures|
    ensures forall j :: 0 <= j < |r| ==>
              && 0 <= r[j].id < |captures|
              && r[j] == captures[r[j].id].(id := r[j].id)
              && InWindow(r[j].date, lo, hi)
    ensures forall j, k :: 0 <= j < k < |r| ==> r[j].id < r[k].id
  {
    if |captures| == 0 then []
    else
      var n := |captures| - 1;
      var init := ZoomList(captures[..n], lo, hi);
      if InWindow(captures[n].date, lo, hi) then init + [captures[n].(id := n)] else init
  }

  /** Every capture in the window is in the list. */
  lemma {:induction false} ZoomListComplete(captures: seq<Capture>, lo: string, hi: string, i: nat)
    requires i < |captures| && InWindow(captures[i].date, lo, hi)
    ensures captures[i].(id := i) in ZoomList(captures, lo, hi)
  {
    var n := |captures| - 1;
    if i < n {
      ZoomListComplete(captures[..n], lo, hi, i);
    }
  }

  /**
   * `d.id = i` writes back the load position: when every id already is its
   * position, the selected captures are exactly the captures themselves.
   */
  lemma ZoomListKeepsLoadIds(captures: seq<Capture>, lo: string, hi: string, j: nat)
    requires forall i :: 0 <= i < |captures| ==> captures[i].id == i
    requires j < |ZoomList(captures, lo, hi)|
    ensures ZoomList(captures, lo, hi)[j] in captures
  {
    var c := ZoomList(captures, lo, hi)[j];
    assert c == captures[c.id];
  }

  /** The loop that fills `zoomList`. */
  method ZoomSelect(captures: seq<Capture>, lo: string, hi: string) returns (zoomList: seq<Capture>)
    ensures zoomList == ZoomList(captures, lo, hi)
  {
    zoomList := [];
    for i := 0 to |captures|
      invariant zoomList == ZoomList(captures[..i], lo, hi)
    {
      assert captures[..i + 1][..i] == captures[..i];
      if !JsLess(captures[i].date, lo) && JsLess(captures[i].date, hi) {
        zoomList := zoomList + [captures[i].(id := i)];
      }
    }
    assert captures[..|captures|] == captures;
  }

  lemma {:induction false} ParseZeros(s: string)
    requires forall i :: 0 <= i < |s| ==> s[i] == '0'
    ensures AllDigits(s) && ParseDigits(s) == 0
  {
    if |s| > 0 {
      ParseZeros(s[..|s| - 1]);
    }
  }

  /** A bound string for a four-digit year is 14 digits worth `(year * 100 + month) * 10^8`. */
  lemma BoundValue(year: nat, month: nat)
    requires 1000 <= year < 10000 && month < 100
    ensures |BoundString(year, month)| == 14 && AllDigits(BoundString(year, month))
    ensures ParseDigits(BoundString(year, month)) == (year * 100 + month) * Pow10(8)
  {
    var y, m := NatToString(year), ZeroPad(month);
    Pow10Values();
    NatToStringLength(year, 4);
    ParseNatToString(year);
    ParseZeroPad(month);
    ParseZeros("00");
    ParseZeros("000000");
    ParseConcat(y, m);
    ParseConcat(y + m, "00");
    ParseConcat(y + m + "00", "000000");
    var v := ParseDigits(y + m);
    assert v == year * 100 + month;
    assert ParseDigits(y + m + "00") == v * 100;
    assert ParseDigits(BoundString(year, month)) == v * 100 * 1000000;
  }

  /** A date's value splits at the day: year and month above, the rest below 10^8. */
  lemma DateValue(date: string)
    requires IsDate(date)
    ensures ParseDigits(date) == (ParseDigits(date[..4]) * 100 + ParseDigits(date[4..6])) * Pow10(8)
                                 + ParseDigits(date[6..])
    ensures ParseDigits(date[6..]) < Pow10(8)
  {
    Pow10Values();
    assert date == date[..6] + date[6..];
    ParseConcat(date[..6], date[6..]);
    assert date[..6] == date[..4] + date[4..6];
    ParseConcat(date[..4], date[4..6]);
  }

  lemma ScaledOrder(k: int, r: int, s: int, p: int)
    requires p > 0 && 0 <= r < p
    ensures k * p + r < s * p <==> k < s
  {
    if k < s {
      assert (k + 1) * p <= s * p;
    } else {
      assert s * p <= k * p;
    }
  }

  /** With months 1 to 12, `year * 100 + month` and `year * 12 + month` order dates alike. */
  lemma YearMonthOrder(y: int, m: int, z: int, n: int)
    requires 1 <= m <= 12 && 1 <= n <= 12
    ensures y * 100 + m < z * 100 + n <==> y * 12 + m < z * 12 + n
  {
    if y < z {
      assert y * 100 + 100 <= z * 100;
      assert y * 12 + 12 <= z * 12;
    } else if y > z {
      assert z * 100 + 100 <= y * 100;
      assert z * 12 + 12 <= y * 12;
    }
  }

  /** Comparing a date with a bound string compares its month index with the bound's. */
  lemma BelowBound(date: string, year: nat, month: nat)
    requires IsDate(date) && 1 <= DateToRange(date).mn <= 12
    requires 1000 <= year < 10000 && 1 <= month <= 12
    ensures JsLess(date, BoundString(year, month))
            <==> MonthIndex(date) < (year - BaseYear) * 12 + month - 1
  {
    var b := BoundString(year, month);
    BoundValue(year, month);
    JsLessDigits(date, b);
    DateValue(date);
    var t := DateToRange(date);
    ScaledOrder(ParseDigits(date[..4]) * 100 + t.mn, ParseDigits(date[6..]), year * 100 + month, Pow10(8));
    YearMonthOrder(ParseDigits(date[..4]), t.mn, year, month);
  }

  /**
   * Selection by string comparison is selection by month: a date with a
   * month from 1 to 12 is in the window exactly when its month index lies
   * in `[startDate, endDate)`, whatever its day and time.
   */
  lemma SelectionByMonth(date: string, w: Window)
    requires IsDate(date) && 1 <= DateToRange(date).mn <= 12
    requires WindowInvariant(w) && w.startYear < 10000 && w.endYear < 10000
    ensures InWindow(date, StartPoint(w), EndPoint(w)) <==> w.startDate <= MonthIndex(date) < w.endDate
  {
    BelowBound(date, w.startYear, w.startMonth);
    BelowBound(date, w.endYear, w.endMonth);
  }

  /** A window of no months selects no string at all, well-formed or not. */
  lemma EmptyWindowSelectsNothing(date: string, w: Window)
    requires WindowInvariant(w) && w.startYear < 10000 && w.endYear < 10000
    requires w.numMonths <= 0
    ensures !InWindow(date, StartPoint(w), EndPoint(w))
  {
    var lo, hi := StartPoint(w), EndPoint(w);
    BoundValue(w.startYear, w.startMonth);
    BoundValue(w.endYear, w.endMonth);
    YearMonthOrder(w.startYear, w.startMonth, w.endYear, w.endMonth);
    var kl, kh := w.startYear * 100 + w.startMonth, w.endYear * 100 + w.endMonth;
    assert kh <= kl;
    MulMonotone(kh, kl, Pow10(8));
    JsLessDigits(lo, hi);
    assert !JsLess(lo, hi);
    if lo != hi {
      JsLessTotal(lo, hi);
      if JsLess(date, hi) {
        JsLessTransitive(date, hi, lo);
      }
    }
  }

  lemma MulMonotone(a: int, b: int, p: nat)
    requires a <= b
    ensures a * p <= b * p
  {
  }

  /** `totalWidth / numMonths`: the columns tile the panel. */
  function BoxWidth(numMonths: int): (bw: real)
    requires numMonths > 0
    ensures bw > 0.0 && bw * numMonths as real == TotalWidth as real
  {
    TotalWidth as real / numMonths as real
  }

  /** The left edge of column `i`: `i * boxWidth + margin.left`. */
  function ColumnX(i: nat, boxWidth: real): real
  {
    i as real * boxWidth + MarginLeft as real
  }

  /**
   * `xPos` from its parts: `a` years and `b` months after the window's
   * first month, `e` days after the first of the month, with columns `bw` wide.
   */
  function XPos(a: int, b: int, e: int, bw: real): real
  {
    a as real * (12.0 * bw) + b as real * bw + e as real * bw / 31.0 + MarginLeft as real
  }

  /** `xPos` of a capture whose date reads `t`. */
  function RangeX(t: TimeRange, w: Window, boxWidth: real): real
  {
    XPos(t.yr - w.startYear + BaseYear, t.mn - w.startMonth, t.day - 1, boxWidth)
  }

  /** The unrounded x position of a capture in the zoomed view. */
  function ZoomXReal(date: string, w: Window, boxWidth: real): real
    requires IsDate(date)
  {
    RangeX(DateToRange(date), w, boxWidth)
  }

  /** `Math.round` of the position. */
  function ZoomX(date: string, w: Window, boxWidth: real): int
    requires IsDate(date)
  {
    Round(ZoomXReal(date, w, boxWidth))
  }

  /**
   * The position is the column of the capture's month (`t.Months()`, its
   * month index), plus one thirty-first of a column per day after the first.
   */
  lemma ZoomXByMonth(t: TimeRange, w: Window, boxWidth: real)
    requires WindowInvariant(w)
    ensures RangeX(t, w, boxWidth)
            == ((t.Months() - w.startDate) as real + (t.day - 1) as real / 31.0) * boxWidth + MarginLeft as real
  {
    ColumnArithmetic(t.yr - w.startYear + BaseYear, t.mn - w.startMonth, t.day - 1, t.Months() - w.startDate, boxWidth);
  }

  lemma ColumnArithmetic(a: int, b: int, e: int, k: int, bw: real)
    requires k == a * 12 + b
    ensures XPos(a, b, e, bw) == (k as real + e as real / 31.0) * bw + MarginLeft as real
  {
  }

  /**
   * A capture on the first day of the window's first month sits exactly on
   * the margin, and every capture selected from a date with a day from 1 to
   * 31 lies on the panel, between the margin and its right edge.
   */
  lemma ZoomXOnPanel(t: TimeRange, w: Window)
    requires WindowInvariant(w) && w.numMonths > 0 && 1 <= t.day <= 31
    ensures t.Months() == w.startDate && t.day == 1 ==> Round(RangeX(t, w, BoxWidth(w.numMonths))) == MarginLeft
    ensures w.startDate <= t.Months() < w.endDate ==>
              MarginLeft <= Round(RangeX(t, w, BoxWidth(w.numMonths))) <= MarginLeft + TotalWidth
  {
    PanelBounds(t.yr - w.startYear + BaseYear, t.mn - w.startMonth, t.day - 1, t.Months() - w.startDate,
                w.numMonths, BoxWidth(w.numMonths));
  }

  /** Rounding a position `a` years, `b` months and `e` days after the window's start. */
  lemma PanelBounds(a: int, b: int, e: int, k: int, n: int, bw: real)
    requires k == a * 12 + b
    requires 0 <= e < 31 && n > 0 && bw > 0.0 && bw * n as real == TotalWidth as real
    ensures k == 0 && e == 0 ==> Round(XPos(a, b, e, bw)) == MarginLeft
    ensures 0 <= k < n ==> MarginLeft <= Round(XPos(a, b, e, bw)) <= MarginLeft + TotalWidth
  {
    ColumnArithmetic(a, b, e, k, bw);
    var offset := k as real + e as real / 31.0;
    if 0 <= k < n {
      assert 0.0 <= offset < n as real;
      assert 0.0 <= offset * bw < n as real * bw;
    }
  }

  /** A heading of the zoomed view: its left edge and its text. */
  datatype Heading = Heading(x: real, text: string)

  /** One heading per month of the window. */
  function Headings(w: Window): (r: seq<Heading>)
    requires WindowInvariant(w)
  {
    if w.numMonths <= 0 then []
    else seq(w.numMonths, i requires 0 <= i < w.numMonths =>
               Heading(ColumnX(i, BoxWidth(w.numMonths)), HeadingText(i, w.numMonths, w.startYear, w.startMonth)))
  }

  /** The month-grid rectangles' left edges: one per month, but only for windows under 36 months. */
  function Grid(w: Window): (r: seq<real>)
  {
    if w.numMonths <= 0 || w.numMonths >= GridLimit then []
    else seq(w.numMonths, i requires 0 <= i < w.numMonths => ColumnX(i, BoxWidth(w.numMonths)))
  }

  /**
   * Headings and grid: heading `d` is at column `d` and names the month
   * `startDate + d`; the grid, when drawn, has a rectangle under each heading.
   */
  lemma HeadingsAndGrid(w: Window, d: nat)
    requires WindowInvariant(w) && d < w.numMonths
    ensures |Headings(w)| == w.numMonths && Headings(w)[d].x == ColumnX(d, BoxWidth(w.numMonths))
    ensures Headings(w)[d].text == HeadingText(d, w.numMonths, w.startYear, w.startMonth)
    ensures var m := HeadingMonth(d, w.startMonth);
            (HeadingYear(d, w.startYear, w.startMonth) - BaseYear) * 12 + m - 1 == w.startDate + d
    ensures |Grid(w)| == (if w.numMonths < GridLimit then w.numMonths else 0)
    ensures w.numMonths < GridLimit ==> Grid(w)[d] == Headings(w)[d].x
  {
    HeadingNamesMonth(d, w.startYear, w.startMonth);
  }

  /** The loop filling `data` with `0 .. numMonths - 1`, and the grid and headings drawn from it. */
  method ColumnHeadings(w: Window) returns (grid: seq<real>, headings: seq<Heading>)
    requires WindowInvariant(w)
    ensures grid == Grid(w) && headings == Headings(w)
  {
    grid, headings := [], [];
    if w.numMonths <= 0 {
      return;
    }
    var i := 0;
    while i < w.numMonths
      invariant 0 <= i <= w.numMonths
      invariant |headings| == i
      invariant forall k :: 0 <= k < i ==>
                  headings[k] == Heading(ColumnX(k, BoxWidth(w.numMonths)), HeadingText(k, w.numMonths, w.startYear, w.startMonth))
      invariant grid == if w.numMonths < GridLimit then seq(i, k requires 0 <= k < i => ColumnX(k, BoxWidth(w.numMonths))) else []
    {
      var x := i as real * BoxWidth(w.numMonths) + MarginLeft as real;
      if w.numMonths < GridLimit {
        grid := grid + [x];
      }
      headings := headings + [Heading(x, HeadingText(i, w.numMonths, w.startYear, w.startMonth))];
      i := i + 1;
    }
  }

  /** A mark of the zoomed view. */
  datatype ZoomMark = ZoomMark(id: int, x: int, y: int, href: string, opacity: real)

  function MarkOf(c: Capture, w: Window, boxWidth: real, counts: seq<CountRecord>): ZoomMark
    requires IsDate(c.date)
  {
    ZoomMark(c.id, ZoomX(c.date, w, boxWidth), MarkY(c.change), Href(c.date), Opacity(c.why, counts))
  }

  /** The marks drawn for `zoomList`. */
  method DrawMarks(zoomList: seq<Capture>, w: Window, boxWidth: real, counts: seq<CountRecord>)
    returns (marks: seq<ZoomMark>)
    requires forall j :: 0 <= j < |zoomList| ==> IsDate(zoomList[j].date)
    ensures |marks| == |zoomList|
    ensures forall j :: 0 <= j < |marks| ==> marks[j] == MarkOf(zoomList[j], w, boxWidth, counts)
  {
    marks := [];
    for j := 0 to |zoomList|
      invariant |marks| == j
      invariant forall k :: 0 <= k < j ==> marks[k] == MarkOf(zoomList[k], w, boxWidth, counts)
    {
      var d := zoomList[j];
      var opacity := FillOpacity(d.why, counts);
      marks := marks + [ZoomMark(d.id, ZoomX(d.date, w, boxWidth), MarkY(d.change), Href(d.date), opacity)];
    }
  }

  /** What one call of showZoom draws. */
  datatype ZoomView = ZoomView(grid: seq<real>, headings: seq<Heading>, marks: seq<ZoomMark>)

  const EmptyView := ZoomView([], [], [])
}
