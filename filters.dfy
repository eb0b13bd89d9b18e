/**
 * The category filter and the tooltip's reason annotation. Clicking a
 * legend entry flips its `isFilter` flag; a zoomed mark is dimmed to 0.1
 * when any switched-on category names one of the capture's `why` tags,
 * and drawn at 0.7 otherwise. The tooltip lists the letter codes of the
 * capture's known tags and counts the others.
 */
module Filters {
  import opened JsText
  import opened Categories

  /** `d.why.split(',')`: a capture's reason tags. */
  function Tags(why: string): (tags: seq<string>)
    ensures |tags| >= 1
    ensures Join(tags, ',') == why
  {
    JoinSplit(why, ',');
    Split(why, ',')
  }

  /** The legend click handler: `d.isFilter = !d.isFilter` on entry `k` only. */
  function Toggle(counts: seq<CountRecord>, k: nat): (r: seq<CountRecord>)
    requires k < |counts|
    ensures |r| == |counts|
    ensures r[k].isFilter != counts[k].isFilter
    ensures r[k].(isFilter := counts[k].isFilter) == counts[k]
    ensures forall j :: 0 <= j < |counts| && j != k ==> r[j] == counts[j]
  {
    counts[k := counts[k].(isFilter := !counts[k].isFilter)]
  }

  /** Clicking the same entry twice restores the legend. */
  lemma ToggleTwice(counts: seq<CountRecord>, k: nat)
    requires k < |counts|
    ensures Toggle(Toggle(counts, k), k) == counts
  {
  }

  /** A mark is dimmed when some switched-on category is among its tags. */
  predicate IsDimmed(why: string, counts: seq<CountRecord>)
  {
    exists k :: 0 <= k < |counts| && counts[k].isFilter && counts[k].name in Tags(why)
  }

  /** The fill-opacity of a zoomed mark. */
  function Opacity(why: string, counts: seq<CountRecord>): real
  {
    if IsDimmed(why, counts) then 0.1 else 0.7
  }

  /** The fill-opacity callback: starts at 0.7 and drops to 0.1 on any switched-on tag. */
  method FillOpacity(why: string, counts: seq<CountRecord>) returns (opacity: real)
    ensures opacity == Opacity(why, counts)
  {
    opacity := 0.7;
    var tags := Split(why, ',');
    for k := 0 to |counts|
      invariant opacity == 0.1 || opacity == 0.7
      invariant opacity == 0.1 <==> exists j :: 0 <= j < k && counts[j].isFilter && counts[j].name in tags
    {
      if counts[k].isFilter {
        var containsWeb := IndexOf(tags, counts[k].name);
        if containsWeb > -1 {
          opacity := 0.1;
        }
      }
    }
  }

  /**
   * Switching on a category that is one of a mark's tags dims the mark;
   * switching it off again restores the opacity it had.
   */
  lemma ToggleDims(why: string, counts: seq<CountRecord>, k: nat)
    requires k < |counts| && !counts[k].isFilter && counts[k].name in Tags(why)
    ensures Opacity(why, Toggle(counts, k)) == 0.1
    ensures Opacity(why, Toggle(Toggle(counts, k), k)) == Opacity(why, counts)
  {
    var on := Toggle(counts, k);
    assert on[k].isFilter && on[k].name in Tags(why);
    ToggleTwice(counts, k);
  }

  /** Flipping a category that is not among a mark's tags leaves its opacity alone. */
  lemma ToggleUnrelated(why: string, counts: seq<CountRecord>, k: nat)
    requires k < |counts| && counts[k].name !in Tags(why)
    ensures Opacity(why, Toggle(counts, k)) == Opacity(why, counts)
  {
    var on := Toggle(counts, k);
    if IsDimmed(why, counts) {
      var j :| 0 <= j < |counts| && counts[j].isFilter && counts[j].name in Tags(why);
      assert on[j] == counts[j];
    }
    if IsDimmed(why, on) {
      var j :| 0 <= j < |on| && on[j].isFilter && on[j].name in Tags(why);
      assert on[j] == counts[j];
    }
  }

  /** `if (filterList[tag])`: the tag has a (non-empty, hence truthy) code. */
  predicate Known(table: map<string, string>, tag: string)
  {
    tag in table && table[tag] != ""
  }

  /** The codes of the known tags, in tag order. */
  function KnownCodes(tags: seq<string>, table: map<string, string>): (codes: seq<string>)
    ensures |codes| <= |tags|
    ensures forall i :: 0 <= i < |codes| ==> codes[i] in table.Values && codes[i] != ""
  {
    if |tags| == 0 then []
    else
      var codes := KnownCodes(tags[..|tags| - 1], table);
      var tag := tags[|tags| - 1];
      if Known(table, tag) then codes + [table[tag]] else codes
  }

  /** How many tags have no code. */
  function UnknownCount(tags: seq<string>, table: map<string, string>): (n: nat)
    ensures n <= |tags|
  {
    if |tags| == 0 then 0
    else
      var n := UnknownCount(tags[..|tags| - 1], table);
      if Known(table, tags[|tags| - 1]) then n else n + 1
  }

  /** Every tag is either listed by its code or counted as other. */
  lemma {:induction false} CodesAndOthers(tags: seq<string>, table: map<string, string>)
    ensures |KnownCodes(tags, table)| + UnknownCount(tags, table) == |tags|
    ensures UnknownCount(tags, table) == 0 <==> forall i :: 0 <= i < |tags| ==> Known(table, tags[i])
  {
    if |tags| > 0 {
      var init := tags[..|tags| - 1];
      CodesAndOthers(init, table);
      assert forall i :: 0 <= i < |init| ==> init[i] == tags[i];
    }
  }

  const WhyPrefix := "Why<span class=\"super\">*</span>: "

  /** The tooltip's reason line from the codes and the number of other tags. */
  function WhyText(codes: seq<string>, otherCount: nat): string
  {
    var response := if |codes| != 0 then WhyPrefix + Join(codes, ',') else "";
    if otherCount > 1 then response + " +" + NatToString(otherCount) + " more" else response
  }

  /** The tooltip's loop over the tags, and the reason line it builds. */
  method WhyAnnotation(why: string, table: map<string, string>)
    returns (codes: seq<string>, otherCount: nat, response: string)
    ensures codes == KnownCodes(Tags(why), table)
    ensures otherCount == UnknownCount(Tags(why), table)
    ensures response == WhyText(codes, otherCount)
  {
    otherCount := 0;
    var arr := Split(why, ',');
    codes := [];
    response := "";
    for i := 0 to |arr|
      invariant codes == KnownCodes(arr[..i], table)
      invariant otherCount == UnknownCount(arr[..i], table)
    {
      assert arr[..i + 1][..i] == arr[..i];
      if arr[i] in table && table[arr[i]] != "" {
        codes := codes + [table[arr[i]]];
      } else {
        otherCount := otherCount + 1;
      }
    }
    assert arr[..|arr|] == arr;
    if |codes| != 0 {
      response := WhyPrefix + Join(codes, ',');
    }
    if otherCount > 1 {
      response := response + " +" + NatToString(otherCount) + " more";
    }
  }

  /**
   * The shape of the reason line: empty exactly when no tag is known and
   * at most one is not; with more than one unknown tag, the line without
   * tags counted is followed by ` +N more`, whose N reads back as that
   * number; and, with no such suffix, the codes can be read back from it
   * when no code contains a comma.
   */
  lemma WhyTextShape(codes: seq<string>, otherCount: nat)
    requires forall i :: 0 <= i < |codes| ==> ',' !in codes[i]
    ensures WhyText(codes, otherCount) == "" <==> |codes| == 0 && otherCount <= 1
    ensures otherCount > 1 ==>
              var text, head := WhyText(codes, otherCount), WhyText(codes, 0);
              && |head| + 2 + 5 < |text|
              && text[..|head|] == head && text[|head|..|head| + 2] == " +"
              && AllDigits(text[|head| + 2..|text| - 5]) && ParseDigits(text[|head| + 2..|text| - 5]) == otherCount
              && text[|text| - 5..] == " more"
    ensures |codes| > 0 && otherCount <= 1 ==>
              var text := WhyText(codes, otherCount);
              text[..|WhyPrefix|] == WhyPrefix && Split(text[|WhyPrefix|..], ',') == codes
  {
    if otherCount > 1 {
      var text, head, n := WhyText(codes, otherCount), WhyText(codes, 0), NatToString(otherCount);
      assert text == head + " +" + n + " more";
      assert text[|head| + 2..|text| - 5] == n;
      ParseNatToString(otherCount);
    }
    if |codes| > 0 && otherCount <= 1 {
      var text := WhyText(codes, otherCount);
      assert text[|WhyPrefix|..] == Join(codes, ',');
      SplitJoin(codes, ',');
    }
  }

  /**
   * With one-letter codes, as the legend assigns them, the reason line ends
   * in ` more` exactly when more than one tag is unknown.
   */
  lemma WhyTextMore(codes: seq<string>, otherCount: nat)
    requires forall i :: 0 <= i < |codes| ==> |codes[i]| == 1
    ensures var text := WhyText(codes, otherCount);
            |text| >= 5 && text[|text| - 5..] == " more" <==> otherCount > 1
  {
    var text := WhyText(codes, otherCount);
    if otherCount <= 1 && |text| >= 5 {
      assert |codes| > 0;
      assert text == WhyPrefix + Join(codes, ',');
      if |codes| == 1 {
        assert text[|text| - 2] == WhyPrefix[|WhyPrefix| - 1];
      } else {
        JoinOfLetters(codes, ',');
        assert text[|text| - 2] == ',';
      }
      assert text[|text| - 5..][3] != 'r';
    }
  }

  /** Joining two or more one-letter pieces puts the separator second to last. */
  lemma {:induction false} JoinOfLetters(parts: seq<string>, sep: char)
    requires |parts| >= 2 && forall i :: 0 <= i < |parts| ==> |parts[i]| == 1
    ensures var j := Join(parts, sep); |j| >= 3 && j[|j| - 2] == sep
  {
    if |parts| > 2 {
      JoinOfLetters(parts[1..], sep);
    }
  }

  /** An empty `why` splits into one empty tag, which counts as one unknown tag. */
  lemma EmptyWhy(table: map<string, string>)
    requires !Known(table, "")
    ensures Tags("") == [""]
    ensures KnownCodes(Tags(""), table) == [] && UnknownCount(Tags(""), table) == 1
    ensures WhyText(KnownCodes(Tags(""), table), UnknownCount(Tags(""), table)) == ""
  {
    assert Tags("") == [""];
    assert [""][..0] == [];
  }
}
