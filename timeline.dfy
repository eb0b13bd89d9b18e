/**
 * The viewer's state and its event handlers: gotData loads the data file
 * into the model and builds the category legend and the `filterList`
 * code table; brushed records the brush edges as fractions of the panel;
 * a click on a legend entry flips its filter; showZoom draws the window
 * the brush selects.
 */
module Timeline {
  import opened JsText
  import opened DateCodec
  import opened Categories
  import opened Overview
  import opened Filters
  import opened Zoom

  /** A value that may be `undefined`. */
  datatype Option<T> = None | Some(value: T)

  /**
   * The parsed data file: the captures in file order, and the two
   * dictionaries `change_counts` and `counts` as their (key, value) pairs
   * in `for-in` order.
   */
  datatype Json = Json(captures: seq<Capture>, changeCounts: seq<(string, int)>, counts: seq<(string, int)>)

  /** Every capture has a 14-character date and its position as id. */
  predicate LoadedCaptures(captures: seq<Capture>)
  {
    forall i :: 0 <= i < |captures| ==> captures[i].id == i && IsDate(captures[i].date)
  }

  /** A brush edge is unset or a non-negative fraction. */
  predicate BrushEdge(p: Option<real>)
  {
    p.Some? ==> p.value >= 0.0
  }

  /**
   * What one call of showZoom draws for brush edges `start` and `end`.
   * With either edge unset the window arithmetic gives NaN and nothing is
   * drawn; a window of no months draws nothing.
   */
  function ZoomViewOf(captures: seq<Capture>, counts: seq<CountRecord>, start: Option<real>, end: Option<real>): ZoomView
    requires forall i :: 0 <= i < |captures| ==> IsDate(captures[i].date)
    requires BrushEdge(start) && BrushEdge(end)
  {
    if start.None? || end.None? then EmptyView
    else
      var w := WindowOf(start.value, end.value);
      if w.numMonths <= 0 then EmptyView
      else
        var zoomList := ZoomList(captures, StartPoint(w), EndPoint(w));
        var bw := BoxWidth(w.numMonths);
        ZoomView(Grid(w), Headings(w),
                 seq(|zoomList|, j requires 0 <= j < |zoomList| => MarkOf(zoomList[j], w, bw, counts)))
  }

  /**
   * The marks of a zoom are the captures of the window's months: capture
   * `i` is drawn exactly when its month index lies in `[startDate, endDate)`,
   * marks come in load order, and each mark carries the capture's id,
   * position, row, link and opacity. The brush edges lie on the panel, as
   * the brush's extent keeps them.
   */
  lemma ShownCaptures(captures: seq<Capture>, counts: seq<CountRecord>, s: real, e: real, i: nat)
    requires LoadedCaptures(captures) && i < |captures|
    requires forall k :: 0 <= k < |captures| ==> 1 <= DateToRange(captures[k].date).mn <= 12
    requires 0.0 <= s <= 1.0 && 0.0 <= e <= 1.0
    ensures var marks := ZoomViewOf(captures, counts, Some(s), Some(e)).marks;
            var w := WindowOf(s, e);
            (exists j :: 0 <= j < |marks| && marks[j].id == i)
              <==> w.startDate <= MonthIndex(captures[i].date) < w.endDate
    ensures var marks := ZoomViewOf(captures, counts, Some(s), Some(e)).marks;
            var w := WindowOf(s, e);
            forall j :: 0 <= j < |marks| ==>
              && 0 <= marks[j].id < |captures|
              && (j > 0 ==> marks[j - 1].id < marks[j].id)
              && marks[j] == MarkOf(captures[marks[j].id], w, BoxWidth(w.numMonths), counts)
  {
    var w := WindowOf(s, e);
    var marks := ZoomViewOf(captures, counts, Some(s), Some(e)).marks;
    PanelWindow(s, e);
    SelectionByMonth(captures[i].date, w);
    if w.numMonths > 0 {
      var lo, hi := StartPoint(w), EndPoint(w);
      var zoomList := ZoomList(captures, lo, hi);
      assert |marks| == |zoomList|;
      if w.startDate <= MonthIndex(captures[i].date) < w.endDate {
        ZoomListComplete(captures, lo, hi, i);
        assert captures[i].(id := i) == captures[i];
        var j :| 0 <= j < |zoomList| && zoomList[j] == captures[i];
        assert marks[j].id == i;
      }
      forall j | 0 <= j < |marks|
        ensures 0 <= marks[j].id < |captures|
        ensures marks[j] == MarkOf(captures[marks[j].id], w, BoxWidth(w.numMonths), counts)
      {
        var c := zoomList[j];
        assert c == captures[c.id];
      }
    }
  }

  /** Every mark of a zoom whose dates have days from 1 to 31 lies on the panel. */
  lemma MarksOnPanel(captures: seq<Capture>, counts: seq<CountRecord>, s: real, e: real)
    requires LoadedCaptures(captures)
    requires forall k :: 0 <= k < |captures| ==> 1 <= DateToRange(captures[k].date).mn <= 12
    requires forall k :: 0 <= k < |captures| ==> 1 <= DateToRange(captures[k].date).day <= 31
    requires 0.0 <= s <= 1.0 && 0.0 <= e <= 1.0
    ensures var marks := ZoomViewOf(captures, counts, Some(s), Some(e)).marks;
            forall j :: 0 <= j < |marks| ==> MarginLeft <= marks[j].x <= MarginLeft + TotalWidth
  {
    var w := WindowOf(s, e);
    PanelWindow(s, e);
    var zoomList := ZoomList(captures, StartPoint(w), EndPoint(w));
    var marks := ZoomViewOf(captures, counts, Some(s), Some(e)).marks;
    forall j | 0 <= j < |marks|
      ensures MarginLeft <= marks[j].x <= MarginLeft + TotalWidth
    {
      var c := zoomList[j];
      assert c == captures[c.id];
      SelectionByMonth(c.date, w);
      ZoomXOnPanel(DateToRange(c.date), w);
    }
  }

  /** gotData's first loop: `d.id = i` for every capture. */
  method NumberCaptures(captures: seq<Capture>) returns (loaded: seq<Capture>)
    ensures |loaded| == |captures|
    ensures forall j :: 0 <= j < |loaded| ==> loaded[j] == captures[j].(id := j)
  {
    loaded := captures;
    for i := 0 to |loaded|
      invariant |loaded| == |captures|
      invariant forall j :: 0 <= j < i ==> loaded[j] == captures[j].(id := j)
      invariant forall j :: i <= j < |loaded| ==> loaded[j] == captures[j]
    {
      loaded := loaded[i := loaded[i].(id := i)];
    }
  }

  /** gotData's loop over `change_counts`, pushing one title per key. */
  method ListTitles(changeCounts: seq<(string, int)>) returns (titles: seq<Title>)
    ensures titles == TitlesOf(changeCounts)
  {
    titles := [];
    for k := 0 to |changeCounts|
      invariant |titles| == k
      invariant forall j :: 0 <= j < k ==> titles[j] == Title(changeCounts[j].0, changeCounts[j].1)
    {
      titles := titles + [Title(changeCounts[k].0, changeCounts[k].1)];
    }
  }

  /** gotData's loop over `counts`, pushing one switched-off record per key. */
  method ListTallies(counts: seq<(string, int)>) returns (crawls: seq<CountRecord>)
    ensures crawls == Tallies(counts)
  {
    crawls := [];
    for k := 0 to |counts|
      invariant |crawls| == k
      invariant forall j :: 0 <= j < k ==> crawls[j] == CountRecord("", counts[j].0, counts[j].1, false)
    {
      crawls := crawls + [CountRecord("", counts[k].0, counts[k].1, false)];
    }
  }

  /**
   * gotData's indexing loop over the sorted records: record `i` gets code
   * `String.fromCharCode(97 + i)` and `filterList[name]` is set to it.
   */
  method IndexCodes(sorted: seq<CountRecord>, filterList: map<string, string>)
    returns (crawls: seq<CountRecord>, table: map<string, string>)
    requires |sorted| < MaxCodes
    ensures crawls == AssignCodes(sorted)
    ensures table == filterList + CodeTable(crawls)
  {
    crawls, table := sorted, filterList;
    var idx := 0;
    for i := 0 to |crawls|
      invariant idx == i && |crawls| == |sorted|
      invariant forall j :: 0 <= j < i ==> crawls[j] == sorted[j].(index := Letter(j))
      invariant forall j :: i <= j < |crawls| ==> crawls[j] == sorted[j]
      invariant table == filterList + CodeTable(crawls[..i])
    {
      ghost var done := crawls[..i];
      var chr := Letter(idx);
      crawls := crawls[i := crawls[i].(index := chr)];
      var refname := crawls[i].name;
      assert crawls[..i + 1] == done + [crawls[i]];
      CodeTableSnoc(done, crawls[i]);
      UpdateUnion(filterList, CodeTable(done), refname, chr);
      table := table[refname := chr];
      idx := idx + 1;
    }
    assert crawls[..|crawls|] == crawls;
  }

  lemma CodeTableSnoc(s: seq<CountRecord>, x: CountRecord)
    ensures CodeTable(s + [x]) == CodeTable(s)[x.name := x.index]
  {
    assert (s + [x])[..|s|] == s;
  }

  lemma UpdateUnion(m: map<string, string>, t: map<string, string>, k: string, v: string)
    ensures (m + t)[k := v] == m + t[k := v]
  {
  }

  /** The viewer: the loaded model, the code table and the brush edges. */
  class Viewer {
    var captures: seq<Capture>
    var titles: seq<Title>
    var counts: seq<CountRecord>
    var filterList: map<string, string>
    var startBrushPosn: Option<real>
    var endBrushPosn: Option<real>

    ghost predicate Valid()
      reads this
    {
      LoadedCaptures(captures) && BrushEdge(startBrushPosn) && BrushEdge(endBrushPosn)
    }

    /** Before any data: no captures, an empty `filterList`, no brush. */
    constructor ()
      ensures Valid()
      ensures captures == [] && titles == [] && counts == [] && filterList == map[]
      ensures startBrushPosn == None && endBrushPosn == None
    {
      captures, titles, counts, filterList := [], [], [], map[];
      startBrushPosn, endBrushPosn := None, None;
    }

    /**
     * gotData: number the captures by position, list the change titles,
     * sort the category tallies by count and give each the next letter
     * code, recording the code in `filterList` under the category's name.
     */
    method GotData(json: Json)
      requires Valid()
      requires forall i :: 0 <= i < |json.captures| ==> IsDate(json.captures[i].date)
      requires |json.counts| < MaxCodes
      modifies this
      ensures Valid()
      ensures |captures| == |json.captures|
      ensures forall i :: 0 <= i < |captures| ==> captures[i] == json.captures[i].(id := i)
      ensures titles == TitlesOf(json.changeCounts)
      ensures counts == Legend(json.counts)
      ensures filterList == old(filterList) + CodeTable(counts)
      ensures startBrushPosn == old(startBrushPosn) && endBrushPosn == old(endBrushPosn)
    {
      var loaded := NumberCaptures(json.captures);
      var names := ListTitles(json.changeCounts);
      var crawls := ListTallies(json.counts);
      crawls := SortDescending(crawls);
      var table;
      crawls, table := IndexCodes(crawls, filterList);
      captures, titles, counts, filterList := loaded, names, crawls, table;
    }

    /**
     * brushed: ignore events that do not come from input and empty
     * selections; otherwise store both edges as fractions of the panel,
     * raised to 0 when left of the margin.
     */
    method Brushed(sourceEvent: bool, selection: Option<(real, real)>)
      requires Valid()
      modifies this`startBrushPosn, this`endBrushPosn
      ensures Valid()
      ensures sourceEvent && selection.Some? ==>
                && startBrushPosn == Some(Normalize(selection.value.0))
                && endBrushPosn == Some(Normalize(selection.value.1))
      ensures !(sourceEvent && selection.Some?) ==>
                startBrushPosn == old(startBrushPosn) && endBrushPosn == old(endBrushPosn)
    {
      if !sourceEvent {
        return;
      }
      if selection.None? {
        return;
      }
      var start := (selection.value.0 - MarginLeft as real) / TotalWidth as real;
      var end := (selection.value.1 - MarginLeft as real) / TotalWidth as real;
      if start < 0.0 {
        start := 0.0;
      }
      if end < 0.0 {
        end := 0.0;
      }
      startBrushPosn, endBrushPosn := Some(start), Some(end);
    }

    /** showZoom: select the window's captures and draw grid, headings and marks. */
    method ShowZoom() returns (view: ZoomView)
      requires Valid()
      ensures view == ZoomViewOf(captures, counts, startBrushPosn, endBrushPosn)
    {
      if startBrushPosn.None? || endBrushPosn.None? {
        return EmptyView;
      }
      var w := WindowOf(startBrushPosn.value, endBrushPosn.value);
      if w.numMonths <= 0 {
        return EmptyView;
      }
      var zoomList := ZoomSelect(captures, StartPoint(w), EndPoint(w));
      var grid, headings := ColumnHeadings(w);
      var marks := DrawMarks(zoomList, w, BoxWidth(w.numMonths), counts);
      view := ZoomView(grid, headings, marks);
    }

    /** A click on legend entry `k`: flip its filter and redraw the zoom. */
    method ClickFilter(k: nat) returns (view: ZoomView)
      requires Valid() && k < |counts|
      modifies this`counts
      ensures Valid()
      ensures counts == Toggle(old(counts), k)
      ensures view == ZoomViewOf(captures, counts, startBrushPosn, endBrushPosn)
    {
      counts := counts[k := counts[k].(isFilter := !counts[k].isFilter)];
      view := ShowZoom();
    }
  }
}
