/**
 * Placement of a capture in the yearly overview (drawChart): its archive
 * link, its x position (five pixels a month from the left margin) and its
 * row (the `lines` table times the row spacing). The zoomed view reuses
 * the link and the row.
 */
module Overview {
  import opened JsText
  import opened DateCodec
  import opened Categories

  const SrcPath := "https://web-beta.archive.org/web/"
  const SrcUrl := "http://dwp.gov.uk"
  /** Left margin of both views, in pixels. */
  const MarginLeft: int := 150
  /** Vertical distance between the rows of the chart, in pixels. */
  const RowSpacing: int := 32

  /** The archive viewer link of a capture: `srcPath + date + '/' + srcURL`. */
  function Href(date: string): (link: string)
    ensures |link| == |SrcPath| + |date| + 1 + |SrcUrl|
    ensures link[..|SrcPath|] == SrcPath
    ensures link[|SrcPath|..|SrcPath| + |date|] == date
    ensures link[|SrcPath| + |date|..] == "/" + SrcUrl
  {
    SrcPath + date + "/" + SrcUrl
  }

  /** Distinct dates give distinct links. */
  lemma HrefInjective(a: string, b: string)
    requires Href(a) == Href(b)
    ensures a == b
  {
    assert |a| == |b|;
    assert a == Href(a)[|SrcPath|..|SrcPath| + |a|];
  }

  /** `x = yr * 60 + mn * 5 + margin.left`. */
  function OverviewX(date: string): int
    requires IsDate(date)
  {
    var t := DateToRange(date);
    t.yr * 60 + t.mn * 5 + MarginLeft
  }

  /**
   * The overview places a capture five pixels per month after January 1996,
   * so all captures of one month share a column and later months lie to the
   * right. January 1996 itself sits at 155, one month-width past the margin.
   */
  lemma OverviewXByMonth(a: string, b: string)
    requires IsDate(a) && IsDate(b)
    ensures OverviewX(a) == 5 * MonthIndex(a) + MarginLeft + 5
    ensures MonthIndex(a) < MonthIndex(b) ==> OverviewX(a) < OverviewX(b)
    ensures MonthIndex(a) == MonthIndex(b) ==> OverviewX(a) == OverviewX(b)
  {
  }

  /** `y = lines[change] * spacing.y`: one row per change kind. */
  function MarkY(c: Change): (y: int)
    ensures RowSpacing <= y <= 7 * RowSpacing && y % RowSpacing == 0
  {
    Line(c) * RowSpacing
  }

  /** Captures of different change kinds are drawn on different rows. */
  lemma MarkYDistinct(a: Change, b: Change)
    requires a != b
    ensures MarkY(a) != MarkY(b)
  {
    LinesDistinct(a, b);
  }
}
