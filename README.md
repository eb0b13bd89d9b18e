# Zoomable archive timeline: a verified model of its zoom and filter engine

The viewer draws 22 years (1996 to 2018) of web-archive captures of one
site, one row per kind of change. A brush over the overview selects a
span of months. That span is redrawn below as a zoomed panel 1320 pixels
wide, with a column per month, month headings whose detail depends on the
span, and one mark per capture. A legend of the captures' reason
categories, each with a letter code, dims the marks of a category when
it is switched on. A tooltip lists the letter codes of a capture's
reasons.

This project models the logic of that engine in `js/module.js`, without
the drawing:

- `js_text.dfy` (module `JsText`): the JavaScript string behaviour the engine relies on.
  - `parseInt` on digits, `String(n)`, `substr`.
  - `split`/`join` on a separator.
  - `indexOf`.
  - `<` on strings, which is lexicographic.
- `date_codec.dfy` (module `DateCodec`): `dateToRange` and `formatDate` on the 14-digit capture date `YYYYMMDDhhmmss`.
- `categories.dfy` (module `Categories`):
  - The seven change kinds and their `lines` rows.
  - The capture and count records.
  - The comparator `compare` and the stable sort it drives.
  - The letter codes `String.fromCharCode(97 + k)`.
  - The legend and `filterList` that gotData builds.
- `overview.dfy` (module `Overview`): the archive link, x and y of a capture in the yearly overview.
- `label_policy.dfy` (module `LabelPolicy`): the month-heading ladder of the zoomed view.
- `filters.dfy` (module `Filters`):
  - The legend click toggle.
  - The fill-opacity rule.
  - The tooltip's reason line.
- `zoom.dfy` (module `Zoom`): the non-drawing part of showZoom.
  - Brush fractions become a window of months.
  - The window gives two bound strings, and captures are selected by string comparison.
  - Column width, headings and grid.
  - The x position of each mark.
- `timeline.dfy` (module `Timeline`): the viewer's state as a class `Viewer`.
  - Fields: `model.captures`, `model.titles`, `model.counts`, `filterList`, `startBrushPosn`, `endBrushPosn`.
  - Handlers: `gotData`, `brushed`, the legend click and `showZoom`.

The central results:

- **Selecting by string is selecting by month.** Take a capture whose month is 1 to 12, in a window with four-digit years. It is selected exactly when its month index (months since January 1996) lies in `[startDate, endDate)`, whatever its day and time (`Zoom.SelectionByMonth`, `Timeline.ShownCaptures`). So a window of no months selects nothing (`Zoom.EmptyWindowSelectsNothing`).
- **Zoomed x position.** A mark's unrounded x is the column of its month plus a 31st of a column per day after the first (`Zoom.ZoomXByMonth`). A capture on the 1st of the window's first month lands exactly on the 150-pixel margin. Every selected capture whose day is 1 to 31 lands on the panel; a day the date's digits allow but the calendar does not (up to 99) can land beyond its right edge (`Zoom.ZoomXOnPanel`, `Timeline.MarksOnPanel`).
- **The legend.** gotData's legend is sorted by non-increasing count, and entries with equal counts keep their input order. It is a permutation of the input tallies. Entry `k` carries code `Letter(k)` with its filter off, and `filterList` maps its name to that code (`Categories.LegendIndexed`, `Categories.SortStable`).
- **The date codec.** It round-trips both ways (`DateCodec.ParseWrittenDate`, `DateCodec.FormatDateLayout`).

## Model

| member | source | states |
|---|---|---|
| DateCodec.DateToRange | js/module.js:67-73 | The year offset plus 1996 has at most four digits, and month and day are below 100 (two digits each). |
| DateCodec.ParseWrittenDate | js/module.js:67-73 | A date written from a four-digit year, a zero-padded month and day and any six-digit clock is 14 digits. dateToRange reads back exactly that year less 1996, that month and that day. |
| DateCodec.ParseZeroPad | js/module.js:79-84 | A number below 100 with a `'0'` prefixed when below 10 is two characters that read back as the number. |
| DateCodec.ZeroPadOfDigits | js/module.js:79-84 | Padding the value of any two-digit field gives the field back, leading zero included. |
| DateCodec.FormatDateLayout | js/module.js:77-86 | For a date with no leading zero, formatDate is `DD MM YYYY`: characters 6-7, a space, characters 4-5, a space and characters 0-3 of the date. |
| Categories.Line | js/module.js:45-53 | The `lines` table gives every change kind a row from 1 to 7. |
| Categories.LinesDistinct | js/module.js:45-53 | Different change kinds have different rows. |
| Categories.Compare | js/module.js:91-97 | compare is -1 exactly when a's value is larger, 1 exactly when it is smaller, and 0 exactly when they are equal. |
| Categories.CompareAntisymmetric | js/module.js:91-97 | Swapping the arguments negates the result. |
| Categories.SortDescending | js/module.js:591 | `crawls.sort(compare)` keeps the length and the multiset of records: the result is a permutation. |
| Categories.SortSorted | js/module.js:591 | The sorted records have non-increasing values. |
| Categories.SortStable | js/module.js:591 | Among records with equal value the sort keeps the input order. |
| Categories.LetterCodes | js/module.js:595 | Codes start at `a` and reach `z` at 25. They go on with `{` past 26 categories, rise one character at a time and never repeat. |
| Categories.CodeTable | js/module.js:594-601 | `filterList` gains exactly the names of the records as keys. |
| Categories.CodeTableLookup | js/module.js:594-601 | When names are distinct, `filterList[name]` is the code of the record with that name. |
| Categories.Tallies | js/module.js:588-590 | One record per `counts` key, with its name and value, index unset and filter off. |
| Categories.TitlesOf | js/module.js:582-584 | One `{name, value}` title per `change_counts` key, in key order. |
| Categories.DistinctAfterSort | js/module.js:591 | Sorting keeps distinct names distinct. |
| Categories.LegendIndexed | js/module.js:586-603 | The built legend has one entry per key and is sorted by non-increasing value. Entry `k` has code `Letter(k)` and filter off, and is one of the input's (name, value) pairs. `filterList` maps its name to `Letter(k)`. |
| Categories.LegendComplete | js/module.js:586-603 | Every input category appears in the legend with its count. |
| Overview.Href | js/module.js:137-138 | The link is the archive prefix, then the date, then `/` and the site URL. |
| Overview.HrefInjective | js/module.js:137-138 | Different dates give different links. |
| Overview.OverviewXByMonth | js/module.js:152-157 | The overview x is 5 pixels per month index plus 155. Captures of one month share a column, and later months lie further right. |
| Overview.MarkY | js/module.js:158-160 | The y position is a multiple of the 32-pixel row spacing, from 32 to 224. |
| Overview.MarkYDistinct | js/module.js:158-160 | Different change kinds are drawn on different rows. |
| LabelPolicy.MonthName | js/module.js:10 | Each month name has three letters. |
| LabelPolicy.MonthInitial | js/module.js:11 | Each initial is one letter, the first letter of the month's name. |
| LabelPolicy.HeadingMonth | js/module.js:423 | The heading month is from 1 to 12. |
| LabelPolicy.HeadingYear | js/module.js:424 | The heading year is never before the start year. |
| LabelPolicy.HeadingNamesMonth | js/module.js:423-424 | Heading `d` names the calendar month exactly `d` months after the window's first month. |
| LabelPolicy.ShortYearOfFourDigits | js/module.js:424-428 | For a four-digit year, `substr(2, 2)` is the year modulo 100 written with two digits. |
| LabelPolicy.LabelLadder | js/module.js:421-445 | Above 60 months, only Januaries are labelled, as `Jan YY`. From 43 to 60 each label is the month's one-letter initial. From 25 to 42 it is the month name. At 24 or fewer it is the name, a space and the two-digit year. |
| LabelPolicy.JanuaryOnlyExample | js/module.js:426-432 | In a 61-month window from March, offsets 0 to 9 are blank and offset 10 is labelled. |
| Filters.Tags | js/module.js:468 | `why.split(',')` is never empty, and joining its pieces with commas gives `why` back. |
| Filters.Toggle | js/module.js:116-118 | The click flips `isFilter` of entry `k` and changes nothing else. |
| Filters.ToggleTwice | js/module.js:116-118 | Two clicks on the same entry restore the legend. |
| Filters.FillOpacity | js/module.js:466-480 | The opacity loop returns 0.1 exactly when some switched-on category is one of the capture's tags, and 0.7 otherwise. |
| Filters.ToggleDims | js/module.js:116-118 | Switching on a category among a mark's tags dims the mark to 0.1. Switching it off again restores the mark's opacity. |
| Filters.ToggleUnrelated | js/module.js:116-118 | Flipping a category that is not among a mark's tags leaves the mark's opacity unchanged. |
| Filters.KnownCodes | js/module.js:504-510 | The listed codes are at most one per tag, and each is a non-empty value of `filterList`. |
| Filters.UnknownCount | js/module.js:504-510 | The count of unknown tags is at most the number of tags. |
| Filters.CodesAndOthers | js/module.js:504-510 | Each tag is listed or counted, never both. No tag is counted exactly when every tag has a code. |
| Filters.WhyAnnotation | js/module.js:498-517 | The tooltip loop lists the codes of the known tags in tag order. It counts the rest and builds the reason line from both. |
| Filters.WhyTextShape | js/module.js:511-517 | The reason line is empty exactly when no tag is known and at most one is unknown. With more than one unknown tag, it is the line built from the codes alone followed by ` +N more`, and N reads back as the number of unknown tags. Without that suffix, splitting after the prefix gives the codes back. |
| Filters.WhyTextMore | js/module.js:511-517 | With one-letter codes, as the legend assigns them, the line ends in ` more` exactly when more than one tag is unknown. |
| Filters.EmptyWhy | js/module.js:500-517 | An empty `why` is one unknown tag and gives an empty reason line. |
| Zoom.Round | js/module.js:345-346 | `Math.round` gives the integer within half of `x`, halves going up. |
| Zoom.Normalize | js/module.js:330-334 | A brush edge at or right of the margin becomes its offset over 1320. An edge left of the margin becomes 0. The result is never negative and has no upper clamp. |
| Zoom.NormalizeInverse | js/module.js:330-334 | The pixel of a non-negative fraction normalises back to the fraction, and normalising keeps the edges' order. |
| Zoom.WindowOf | js/module.js:345-364 | `startDate` and `endDate` are the rounded fractions of 264 months. Year and month name the same month index, months run 1 to 12, and `numMonths` is their difference. |
| Zoom.PanelWindow | js/module.js:345-364 | Brush edges on the panel (fractions 0 to 1) give month indices of at most 264, so the window's years are at most 2018. |
| Zoom.BoundValue | js/module.js:362-363 | A bound string for a four-digit year is 14 digits worth `(year * 100 + month) * 10^8`. |
| Zoom.BelowBound | js/module.js:376 | A date is below a bound string exactly when its month index is below the bound's. |
| Zoom.SelectionByMonth | js/module.js:345-380 | A date with month 1 to 12 passes `startPoint <= date < endPoint` exactly when its month index lies in `[startDate, endDate)`. |
| Zoom.EmptyWindowSelectsNothing | js/module.js:361-380 | When `numMonths <= 0`, no string at all passes the comparison. |
| Zoom.ZoomList | js/module.js:373-380 | The selection keeps load order. Each selected capture is the capture at its id with that id written back, and it lies between the bounds. |
| Zoom.ZoomListComplete | js/module.js:373-380 | Every capture between the bounds is selected, with its load position as id. |
| Zoom.ZoomListKeepsLoadIds | js/module.js:377 | When ids already are load positions, each selected capture is one of the captures unchanged. |
| Zoom.ZoomSelect | js/module.js:373-380 | The `forEach` loop builds exactly the selection. |
| Zoom.BoxWidth | js/module.js:365 | `numMonths` columns of `boxWidth` fill the 1320-pixel panel. |
| Zoom.ZoomXByMonth | js/module.js:482-486 | The x formula equals the column of the capture's month index relative to `startDate`, plus a 31st of a column per day after the first, plus the margin. |
| Zoom.ZoomXOnPanel | js/module.js:482-486 | A capture on the 1st of the first month rounds to exactly 150. A capture of any month in the window with a day from 1 to 31 rounds into `[150, 1470]`. |
| Zoom.HeadingsAndGrid | js/module.js:367-371 | There is one heading per month, and heading `d` sits at column `d` and names month `startDate + d`. The grid has a rectangle under every heading when `numMonths < 36` and none otherwise. |
| Zoom.ColumnHeadings | js/module.js:367-445 | The `data` loop yields exactly those grid edges and headings. |
| Zoom.DrawMarks | js/module.js:447-492 | One mark per selected capture, with its id, rounded x, row y, link and opacity. |
| Timeline.ShownCaptures | js/module.js:373-492 | For brush edges on the panel, capture `i` has a mark exactly when its month index lies in `[startDate, endDate)`. Marks come in load order, and each is the mark of the capture with its id. |
| Timeline.MarksOnPanel | js/module.js:482-486 | For brush edges on the panel and days 1 to 31, every mark of a zoom lies between the margin and the right edge of the panel. |
| Timeline.NumberCaptures | js/module.js:577-579 | Every capture gets its position as id, and nothing else changes. |
| Timeline.ListTitles | js/module.js:582-584 | The titles loop builds one title per `change_counts` key. |
| Timeline.ListTallies | js/module.js:588-590 | The push loop builds one switched-off record per `counts` key. |
| Timeline.IndexCodes | js/module.js:594-602 | Record `i` gets code `Letter(i)`, and `filterList` gains each record's name bound to its code. |
| Timeline.Viewer.constructor | js/module.js:29-31 | Before any data: `filterList` is empty and both brush edges are unset. |
| Timeline.Viewer.GotData | js/module.js:570-608 | The captures are numbered by position and the titles listed. `counts` becomes the legend, and `filterList` is extended with its codes. The brush is untouched. |
| Timeline.Viewer.Brushed | js/module.js:321-337 | With an input event and a selection, both edges become their normalised fractions. Otherwise both are unchanged. |
| Timeline.Viewer.ShowZoom | js/module.js:340-492 | The view drawn is the grid, headings and marks of the window the brush selects. It is empty when an edge is unset or the window has no months. |
| Timeline.Viewer.ClickFilter | js/module.js:116-119 | The click flips entry `k`'s filter and redraws the zoom with the new flags. |

## Left out

- Rendering is not modelled: the d3 selections, attributes, styles, transitions and removal of old elements. The model computes the values those chains are given: grid edges, heading positions and texts, and mark id, x, y, link and opacity.
- The following are setup or I/O, and are not modelled:
  - `loadData`, whose `d3.json` call is network I/O. The parsed file is the `Json` parameter of `GotData`.
  - `init`, `initFilter`, `drawChart`'s fixed axes and labels, and the brush construction.
- The tooltip's pixel position and HTML markup are not modelled. This includes the screenshot thumbnail and `getBoundingClientRect`.
- Pixel arithmetic uses exact reals rather than IEEE doubles.
- Malformed dates are outside the model. Dates are 14 ASCII digits by precondition, so `parseInt` leniency and NaN do not arise.
- JSON objects are modelled as their (key, value) pairs in `for-in` order, taken as given. For example, JavaScript enumerates the integer-like key `404` first.
- `Object.prototype` names are treated as absent from `filterList`: the model's table holds only the codes gotData stores.
- Categories.Letter: `String.fromCharCode(97 + k)` is modelled only below the UTF-16 surrogate range (`k < 0xD800 - 97`), because a Dafny `char` cannot hold a lone surrogate.
- Categories.SortDescending: `Array.prototype.sort` runs in place in the library. It is modelled by its stable-sort specification on a sequence, not by the engine's algorithm.
- Categories.Tallies: the pushed records start with `index: 0`, a number. The model writes `""` there. The indexing loop overwrites it before it is read.
- Timeline.Viewer.ShowZoom: `d.id = i` writes the load position back into the capture. The model keeps the captures unchanged and writes the id into the selected copy, because gotData already set every id to its position (`Zoom.ZoomListKeepsLoadIds`).
- Timeline.Viewer.ShowZoom: for `numMonths <= 0` the model returns the empty view. In the source, `boxWidth` divides by zero or by a negative count. The selection is still empty whenever both bound years have four digits (`Zoom.EmptyWindowSelectsNothing`), as they do for brush selections inside the panel.
- Timeline.Viewer.ShowZoom: when a brush edge is unset, the source computes NaN bounds that select nothing and draws nothing. The model returns the empty view directly.
- Zoom.WindowOf: brush fractions are non-negative by precondition. `brushed` clamps them so, and JavaScript's `%` agrees with Dafny's only there.
- Three quirks of the code are kept as written:
  - The January test in the heading ladder is `(d + startMonth - 1) % 12 == 0`.
  - Selected captures keep their load-order id and are not renumbered within the selection.
  - A window from March to June 1998 selects by month index, so a date of 15 February 1998 is outside it.
