/**
 * The data loaded once by gotData: captures, the per-change titles and the
 * legend of category counts. The legend is sorted by descending count with
 * `compare` and each entry gets a letter code `a`, `b`, `c`, ... in that
 * order; the module dictionary `filterList` maps each category name to its
 * code for the tooltip.
 */
module Categories {
  import opened JsText

  /** The seven change kinds a capture is classified under. */
  datatype Change = NotFound | Major | Minor | Unchanged | Redirect | Revisit | Screenshot

  /** The JSON key of each change kind. */
  function ChangeKey(c: Change): string
  {
    match c
    case NotFound => "404"
    case Major => "major"
    case Minor => "minor"
    case Unchanged => "none"
    case Redirect => "redir"
    case Revisit => "revisit"
    case Screenshot => "screenshot"
  }

  /** The `lines` table: the row of the chart each change kind is drawn on. */
  function Line(c: Change): (row: nat)
    ensures 1 <= row <= 7
  {
    match c
    case NotFound => 1
    case Major => 2
    case Minor => 3
    case Unchanged => 4
    case Redirect => 5
    case Revisit => 6
    case Screenshot => 7
  }

  /** Distinct change kinds are drawn on distinct rows and have distinct keys. */
  lemma LinesDistinct(a: Change, b: Change)
    requires a != b
    ensures Line(a) != Line(b) && ChangeKey(a) != ChangeKey(b)
  {
  }

  /** One archived snapshot; `why` is the comma-joined list of reason tags. */
  datatype Capture = Capture(date: string, change: Change, why: string, id: int)

  /** A `change_counts` entry, kept for the static row titles. */
  datatype Title = Title(name: string, value: int)

  /**
   * A legend entry. `index` is the letter code (the placeholder written
   * before the codes are assigned is overwritten before anything reads it).
   */
  datatype CountRecord = CountRecord(index: string, name: string, value: int, isFilter: bool)

  /** The comparator handed to `sort`: negative puts `a` first, so larger values come first. */
  function Compare(a: CountRecord, b: CountRecord): (r: int)
    ensures r == -1 || r == 0 || r == 1
    ensures r < 0 <==> a.value > b.value
    ensures r > 0 <==> a.value < b.value
  {
    if a.value > b.value then -1
    else if a.value < b.value then 1
    else 0
  }

  /** The comparator is antisymmetric, as `sort` requires of a consistent comparator. */
  lemma CompareAntisymmetric(a: CountRecord, b: CountRecord)
    ensures Compare(a, b) == -Compare(b, a)
  {
  }

  predicate SortedDescending(s: seq<CountRecord>)
  {
    forall i, j :: 0 <= i < j < |s| ==> s[i].value >= s[j].value
  }

  /** The entries of `s` with count `v`, in their order in `s`. */
  function WithValue(s: seq<CountRecord>, v: int): seq<CountRecord>
  {
    if |s| == 0 then []
    else (if s[0].value == v then [s[0]] else []) + WithValue(s[1..], v)
  }

  /** Places `x` before the first entry it does not compare after. */
  function Insert(x: CountRecord, s: seq<CountRecord>): (r: seq<CountRecord>)
    ensures |r| == |s| + 1
    ensures multiset(r) == multiset(s) + multiset{x}
  {
    if |s| == 0 || Compare(x, s[0]) <= 0 then [x] + s
    else
      assert s == [s[0]] + s[1..];
      [s[0]] + Insert(x, s[1..])
  }

  /** `crawls.sort(compare)`: a stable sort, as JavaScript's `Array.prototype.sort` is. */
  function SortDescending(s: seq<CountRecord>): (r: seq<CountRecord>)
    ensures |r| == |s|
    ensures multiset(r) == multiset(s)
  {
    if |s| == 0 then []
    else
      assert s == [s[0]] + s[1..];
      Insert(s[0], SortDescending(s[1..]))
  }

  lemma {:induction false} WithValueConcat(a: seq<CountRecord>, b: seq<CountRecord>, v: int)
    ensures WithValue(a + b, v) == WithValue(a, v) + WithValue(b, v)
  {
    if |a| > 0 {
      assert (a + b)[1..] == a[1..] + b;
      WithValueConcat(a[1..], b, v);
    } else {
      assert a + b == b;
    }
  }

  lemma {:induction false} InsertKeepsOrder(x: CountRecord, s: seq<CountRecord>)
    requires SortedDescending(s)
    ensures SortedDescending(Insert(x, s))
  {
    if |s| > 0 && Compare(x, s[0]) > 0 {
      InsertKeepsOrder(x, s[1..]);
      var t := Insert(x, s[1..]);
      forall j | 0 <= j < |t| ensures s[0].value >= t[j].value {
        assert t[j] in multiset(t);
        assert t[j] == x || t[j] in multiset(s[1..]);
      }
    }
  }

  /** The sorted legend has non-increasing counts (and, by its contract, the same entries). */
  lemma {:induction false} SortSorted(s: seq<CountRecord>)
    ensures SortedDescending(SortDescending(s))
  {
    if |s| > 0 {
      SortSorted(s[1..]);
      InsertKeepsOrder(s[0], SortDescending(s[1..]));
    }
  }

  lemma {:induction false} InsertStable(x: CountRecord, s: seq<CountRecord>, v: int)
    requires SortedDescending(s)
    ensures WithValue(Insert(x, s), v) == WithValue([x] + s, v)
  {
    if |s| > 0 && Compare(x, s[0]) > 0 {
      InsertStable(x, s[1..], v);
      WithValueConcat([s[0]], Insert(x, s[1..]), v);
      WithValueConcat([s[0]], [x] + s[1..], v);
      WithValueConcat([x], s[1..], v);
      WithValueConcat([x], s, v);
      WithValueConcat([s[0]], s[1..], v);
      assert [s[0]] + s[1..] == s;
    }
  }

  /**
   * Stability: entries with equal counts keep the order they had in the
   * input, so the legend (and every letter code) is determined by the input.
   */
  lemma {:induction false} SortStable(s: seq<CountRecord>, v: int)
    ensures WithValue(SortDescending(s), v) == WithValue(s, v)
  {
    if |s| > 0 {
      var rest := SortDescending(s[1..]);
      assert SortDescending(s) == Insert(s[0], rest);
      SortStable(s[1..], v);
      SortSorted(s[1..]);
      InsertStable(s[0], rest, v);
      WithValueConcat([s[0]], rest, v);
      WithValueConcat([s[0]], s[1..], v);
      assert [s[0]] + s[1..] == s;
    }
  }

  /** Codes stay below the UTF-16 surrogate range, where `String.fromCharCode` stops giving characters. */
  const MaxCodes: nat := 0xD800 - 97

  /** `String.fromCharCode(97 + k)`: `a` for the first entry, then on through `z` and beyond. */
  function Letter(k: nat): (code: string)
    requires k < MaxCodes
    ensures |code| == 1
  {
    [(97 + k) as char]
  }

  /** Letter codes start at `a`, are consecutive, continue past `z`, and never repeat. */
  lemma LetterCodes(j: nat, k: nat)
    requires j < MaxCodes && k < MaxCodes
    ensures Letter(0) == "a" && Letter(25) == "z" && Letter(26) == "{"
    ensures k + 1 < MaxCodes ==> Letter(k + 1)[0] as int == Letter(k)[0] as int + 1
    ensures j != k ==> Letter(j) != Letter(k)
  {
    if j != k {
      assert Letter(j)[0] != Letter(k)[0];
    }
  }

  /** The `for-in` loop of gotData: entry `i` of the sorted list gets code `Letter(i)`. */
  function AssignCodes(s: seq<CountRecord>): (r: seq<CountRecord>)
    requires |s| < MaxCodes
    ensures |r| == |s|
  {
    seq(|s|, i requires 0 <= i < |s| => s[i].(index := Letter(i)))
  }

  /** `filterList` as the indexing loop leaves it: each name bound to the last code given to it. */
  function CodeTable(s: seq<CountRecord>): (table: map<string, string>)
    ensures table.Keys == set i | 0 <= i < |s| :: s[i].name
  {
    if |s| == 0 then map[]
    else CodeTable(s[..|s| - 1])[s[|s| - 1].name := s[|s| - 1].index]
  }

  predicate DistinctNames(s: seq<CountRecord>)
  {
    forall i, j :: 0 <= i < j < |s| ==> s[i].name != s[j].name
  }

  /** With distinct names, `filterList[name]` is the code of the entry with that name. */
  lemma {:induction false} CodeTableLookup(s: seq<CountRecord>, k: nat)
    requires DistinctNames(s) && k < |s|
    ensures s[k].name in CodeTable(s) && CodeTable(s)[s[k].name] == s[k].index
  {
    if k < |s| - 1 {
      CodeTableLookup(s[..|s| - 1], k);
    }
  }

  /** The records pushed into `crawls`, one per `counts` key, all filters off. */
  function Tallies(counts: seq<(string, int)>): (r: seq<CountRecord>)
    ensures |r| == |counts|
    ensures forall i :: 0 <= i < |r| ==> r[i] == CountRecord("", counts[i].0, counts[i].1, false)
  {
    seq(|counts|, i requires 0 <= i < |counts| => CountRecord("", counts[i].0, counts[i].1, false))
  }

  /** `model.titles`: one `{name, value}` per `change_counts` key, in key order. */
  function TitlesOf(changeCounts: seq<(string, int)>): (r: seq<Title>)
    ensures |r| == |changeCounts|
    ensures forall i :: 0 <= i < |r| ==> r[i] == Title(changeCounts[i].0, changeCounts[i].1)
  {
    seq(|changeCounts|, i requires 0 <= i < |changeCounts| => Title(changeCounts[i].0, changeCounts[i].1))
  }

  /** The legend gotData builds from the `counts` dictionary. */
  function Legend(counts: seq<(string, int)>): (r: seq<CountRecord>)
    requires |counts| < MaxCodes
  {
    AssignCodes(SortDescending(Tallies(counts)))
  }

  predicate DistinctKeys(counts: seq<(string, int)>)
  {
    forall i, j :: 0 <= i < j < |counts| ==> counts[i].0 != counts[j].0
  }

  /** Inserting an entry whose name is new keeps names distinct. */
  lemma {:induction false} InsertDistinct(x: CountRecord, s: seq<CountRecord>)
    requires DistinctNames(s)
    requires forall y :: y in s ==> y.name != x.name
    ensures DistinctNames(Insert(x, s))
  {
    if |s| > 0 && Compare(x, s[0]) > 0 {
      InsertDistinct(x, s[1..]);
      var t := Insert(x, s[1..]);
      forall j | 0 <= j < |t| ensures s[0].name != t[j].name {
        assert t[j] in multiset(t);
        assert t[j] == x || t[j] in multiset(s[1..]);
      }
    } else {
      assert forall j :: 0 <= j < |s| ==> s[j] in s;
    }
  }

  /** Sorting only moves entries, so distinct names stay distinct. */
  lemma {:induction false} DistinctAfterSort(s: seq<CountRecord>)
    requires DistinctNames(s)
    ensures DistinctNames(SortDescending(s))
  {
    if |s| > 0 {
      DistinctAfterSort(s[1..]);
      var t := SortDescending(s[1..]);
      forall y | y in t ensures y.name != s[0].name {
        assert y in multiset(s[1..]);
      }
      InsertDistinct(s[0], t);
    }
  }

  /**
   * What gotData promises of each legend entry: the legend is sorted by
   * non-increasing count, entry `k` carries code `Letter(k)` with its filter
   * off, it is one of the input's categories, and `filterList` maps its
   * name to its code.
   */
  lemma LegendIndexed(counts: seq<(string, int)>, k: nat)
    requires |counts| < MaxCodes && DistinctKeys(counts) && k < |counts|
    ensures |Legend(counts)| == |counts|
    ensures SortedDescending(Legend(counts))
    ensures Legend(counts)[k].index == Letter(k) && !Legend(counts)[k].isFilter
    ensures exists j :: 0 <= j < |counts| && Legend(counts)[k].name == counts[j].0
                                          && Legend(counts)[k].value == counts[j].1
    ensures CodeTable(Legend(counts))[Legend(counts)[k].name] == Letter(k)
  {
    var tallies := Tallies(counts);
    var sorted := SortDescending(tallies);
    SortSorted(tallies);
    assert sorted[k] in multiset(tallies);
    var j :| 0 <= j < |tallies| && tallies[j] == sorted[k];
    DistinctAfterSort(tallies);
    var legend := Legend(counts);
    assert legend[k] == sorted[k].(index := Letter(k));
    assert DistinctNames(legend);
    CodeTableLookup(legend, k);
  }

  /** Every input category appears in the legend with its count. */
  lemma LegendComplete(counts: seq<(string, int)>, j: nat)
    requires |counts| < MaxCodes && j < |counts|
    ensures exists k :: 0 <= k < |Legend(counts)| && Legend(counts)[k].name == counts[j].0
                                                  && Legend(counts)[k].value == counts[j].1
  {
    var tallies := Tallies(counts);
    var sorted := SortDescending(tallies);
    assert tallies[j] in multiset(sorted);
    var k :| 0 <= k < |sorted| && sorted[k] == tallies[j];
    assert Legend(counts)[k] == sorted[k].(index := Letter(k));
  }
}
