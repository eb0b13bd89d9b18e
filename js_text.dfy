/**
 * The pieces of JavaScript string behaviour that the timeline relies on:
 * `parseInt` over decimal digits, `String(n)` for non-negative integers,
 * `substr`, `split(',')` with its inverse `join`, and the `<` comparison
 * on strings that selects captures by date.
 */
module JsText {

  predicate IsDigit(c: char) { '0' <= c <= '9' }

  predicate AllDigits(s: string) { forall i :: 0 <= i < |s| ==> IsDigit(s[i]) }

  function DigitValue(c: char): (d: nat)
    requires IsDigit(c)
    ensures d < 10
    ensures d == 0 <==> c == '0'
  {
    (c as int) - ('0' as int)
  }

  function DigitChar(d: nat): (c: char)
    requires d < 10
    ensures IsDigit(c) && DigitValue(c) == d
  {
    (('0' as int) + d) as char
  }

  function Pow10(n: nat): (p: nat)
    ensures p >= 1
  {
    if n == 0 then 1 else 10 * Pow10(n - 1)
  }

  lemma Pow10Values()
    ensures Pow10(1) == 10 && Pow10(2) == 100 && Pow10(3) == 1000 && Pow10(4) == 10000
    ensures Pow10(6) == 1000000 && Pow10(8) == 100000000
  {
    assert Pow10(5) == 100000;
    assert Pow10(7) == 10000000;
  }

  /** `parseInt` of a string made only of decimal digits (the empty string reads as 0). */
  function ParseDigits(s: string): (v: nat)
    requires AllDigits(s)
    ensures v < Pow10(|s|)
  {
    if |s| == 0 then 0 else ParseDigits(s[..|s| - 1]) * 10 + DigitValue(s[|s| - 1])
  }

  /** `String(n)` for a non-negative integer: its decimal digits, with no leading zero. */
  function NatToString(n: nat): (s: string)
    ensures |s| >= 1 && AllDigits(s)
    ensures s[0] == '0' ==> n == 0
  {
    if n < 10 then [DigitChar(n)] else NatToString(n / 10) + [DigitChar(n % 10)]
  }

  /** `s.substr(start, len)`: at most `len` characters from `start`, clipped to the string. */
  function Substr(s: string, start: nat, len: nat): (r: string)
    ensures |r| <= len
    ensures start + len <= |s| ==> r == s[start..start + len]
  {
    if start >= |s| then ""
    else if start + len <= |s| then s[start..start + len]
    else s[start..]
  }

  lemma DigitRoundTrip(c: char)
    requires IsDigit(c)
    ensures DigitChar(DigitValue(c)) == c
  {
  }

  /** Reading back what `String(n)` wrote gives `n`. */
  lemma {:induction false} ParseNatToString(n: nat)
    ensures ParseDigits(NatToString(n)) == n
  {
    var s := NatToString(n);
    if n >= 10 {
      assert s[..|s| - 1] == NatToString(n / 10);
      ParseNatToString(n / 10);
    } else {
      assert s[..|s| - 1] == [];
    }
  }

  /** A digit string that starts with a non-zero digit has its full width of magnitude. */
  lemma {:induction false} LeadingDigitBound(s: string)
    requires AllDigits(s) && |s| >= 1 && s[0] != '0'
    ensures ParseDigits(s) >= Pow10(|s| - 1)
  {
    var init := s[..|s| - 1];
    if |s| == 1 {
      assert init == [];
    } else {
      assert init[0] == s[0];
      LeadingDigitBound(init);
    }
  }

  /** `String(parseInt(s))` gives back `s` when `s` has no leading zero. */
  lemma {:induction false} NatToStringOfDigits(s: string)
    requires AllDigits(s) && |s| >= 1 && s[0] != '0'
    ensures NatToString(ParseDigits(s)) == s
  {
    var n := |s|;
    var init := s[..n - 1];
    var v := ParseDigits(s);
    DigitRoundTrip(s[n - 1]);
    if n == 1 {
      assert init == [];
      assert v == DigitValue(s[0]);
    } else {
      assert init[0] == s[0];
      NatToStringOfDigits(init);
      LeadingDigitBound(init);
      assert v == ParseDigits(init) * 10 + DigitValue(s[n - 1]);
      assert v / 10 == ParseDigits(init) && v % 10 == DigitValue(s[n - 1]);
      assert s == init + [s[n - 1]];
    }
  }

  /** `String(n)` has exactly `k` digits when `n` has `k` decimal places. */
  lemma {:induction false} NatToStringLength(n: nat, k: nat)
    requires k >= 1 && Pow10(k - 1) <= n < Pow10(k)
    ensures |NatToString(n)| == k
  {
    if k > 1 {
      assert Pow10(k - 1) == 10 * Pow10(k - 2);
      NatToStringLength(n / 10, k - 1);
    }
  }

  /** The value of a concatenation of digit strings. */
  lemma {:induction false} ParseConcat(a: string, b: string)
    requires AllDigits(a) && AllDigits(b)
    ensures AllDigits(a + b)
    ensures ParseDigits(a + b) == ParseDigits(a) * Pow10(|b|) + ParseDigits(b)
  {
    var ab := a + b;
    if |b| == 0 {
      assert ab == a;
    } else {
      var b' := b[..|b| - 1];
      assert ab[..|ab| - 1] == a + b';
      ParseConcat(a, b');
      var pa, q, d, w := ParseDigits(a), ParseDigits(b'), DigitValue(b[|b| - 1]), Pow10(|b'|);
      assert ParseDigits(ab) == ParseDigits(a + b') * 10 + d;
      assert ParseDigits(b) == q * 10 + d;
      assert Pow10(|b|) == w * 10;
      ShiftDigit(ParseDigits(ab), pa, w, q, d, Pow10(|b|), ParseDigits(b));
    }
  }

  lemma ShiftDigit(v: int, x: int, w: int, q: int, d: int, p: int, r: int)
    requires v == (x * w + q) * 10 + d && p == w * 10 && r == q * 10 + d
    ensures v == x * p + r
  {
  }

  /** The leading digit's weight: `parseInt(s) == s[0] * 10^(|s|-1) + parseInt(s[1..])`. */
  lemma LeadingDigit(s: string)
    requires AllDigits(s) && |s| >= 1
    ensures ParseDigits(s) == DigitValue(s[0]) * Pow10(|s| - 1) + ParseDigits(s[1..])
  {
    var head := [s[0]];
    assert s == head + s[1..];
    ParseConcat(head, s[1..]);
    assert head[..0] == [];
    assert ParseDigits(head) == DigitValue(s[0]);
  }

  /**
   * JavaScript's `<` on strings: lexicographic comparison, a proper prefix
   * being smaller. JavaScript compares UTF-16 code units and this compares
   * characters; the two agree on the digit strings the timeline compares.
   */
  predicate JsLess(a: string, b: string)
  {
    if |a| == 0 then |b| > 0
    else if |b| == 0 then false
    else if a[0] != b[0] then a[0] < b[0]
    else JsLess(a[1..], b[1..])
  }

  lemma {:induction false} JsLessIrreflexive(a: string)
    ensures !JsLess(a, a)
  {
    if |a| > 0 {
      JsLessIrreflexive(a[1..]);
    }
  }

  lemma {:induction false} JsLessTransitive(a: string, b: string, c: string)
    requires JsLess(a, b) && JsLess(b, c)
    ensures JsLess(a, c)
  {
    if |a| > 0 && |b| > 0 && |c| > 0 && a[0] == b[0] && b[0] == c[0] {
      JsLessTransitive(a[1..], b[1..], c[1..]);
    }
  }

  /**
   * On digit strings of equal width the string order is the numeric order:
   * this is what lets the source compare fixed-width dates as strings.
   */
  lemma {:induction false} JsLessDigits(a: string, b: string)
    requires AllDigits(a) && AllDigits(b) && |a| == |b|
    ensures JsLess(a, b) <==> ParseDigits(a) < ParseDigits(b)
  {
    if |a| > 0 {
      var p := Pow10(|a| - 1);
      LeadingDigit(a);
      LeadingDigit(b);
      var da, db := DigitValue(a[0]), DigitValue(b[0]);
      var ra, rb := ParseDigits(a[1..]), ParseDigits(b[1..]);
      assert ra < p && rb < p;
      if a[0] == b[0] {
        JsLessDigits(a[1..], b[1..]);
      } else if a[0] < b[0] {
        LeadingDigitOrder(da, ra, db, rb, p);
      } else {
        LeadingDigitOrder(db, rb, da, ra, p);
      }
    }
  }

  lemma LeadingDigitOrder(dx: nat, rx: nat, dy: nat, ry: nat, p: nat)
    requires dx < dy && rx < p
    ensures dx * p + rx < dy * p + ry
  {
    assert (dx + 1) * p <= dy * p;
  }

  /** Two different strings are ordered one way or the other. */
  lemma {:induction false} JsLessTotal(a: string, b: string)
    requires a != b
    ensures JsLess(a, b) || JsLess(b, a)
  {
    if |a| > 0 && |b| > 0 && a[0] == b[0] {
      assert a == [a[0]] + a[1..] && b == [b[0]] + b[1..];
      JsLessTotal(a[1..], b[1..]);
    }
  }

  /** `s.indexOf(x)`: the first position holding `x`, or -1. */
  function IndexOf<T(==)>(s: seq<T>, x: T): (i: int)
    ensures -1 <= i < |s|
    ensures i == -1 <==> x !in s
    ensures i >= 0 ==> s[i] == x && x !in s[..i]
  {
    if |s| == 0 then -1
    else if s[0] == x then 0
    else
      var j := IndexOf(s[1..], x);
      assert s == [s[0]] + s[1..];
      if j == -1 then -1 else j + 1
  }

  /** `s.split(sep)`: the pieces between separators; never empty (`"".split(',')` is `[""]`). */
  function Split(s: string, sep: char): (parts: seq<string>)
    ensures |parts| >= 1
    ensures forall i :: 0 <= i < |parts| ==> sep !in parts[i]
  {
    if |s| == 0 then [""]
    else
      var rest := Split(s[1..], sep);
      if s[0] == sep then [""] + rest
      else [[s[0]] + rest[0]] + rest[1..]
  }

  /** `parts.join(sep)`, which is also what string concatenation does with an array. */
  function Join(parts: seq<string>, sep: char): string
  {
    if |parts| == 0 then ""
    else if |parts| == 1 then parts[0]
    else parts[0] + [sep] + Join(parts[1..], sep)
  }

  /** Joining the pieces of a split restores the string. */
  lemma {:induction false} JoinSplit(s: string, sep: char)
    ensures Join(Split(s, sep), sep) == s
  {
    if |s| > 0 {
      var rest := Split(s[1..], sep);
      JoinSplit(s[1..], sep);
      if s[0] == sep {
        assert ([""] + rest)[1..] == rest;
      } else if |rest| > 1 {
        var parts := Split(s, sep);
        assert parts[1..] == rest[1..];
        assert Join(rest, sep) == rest[0] + [sep] + Join(rest[1..], sep);
      }
    }
  }

  /** A piece followed by a separator splits off as one piece. */
  lemma {:induction false} SplitPiece(p: string, sep: char, t: string)
    requires sep !in p
    ensures Split(p + [sep] + t, sep) == [p] + Split(t, sep)
  {
    if |p| > 0 {
      assert (p + [sep] + t)[1..] == p[1..] + [sep] + t;
      SplitPiece(p[1..], sep, t);
      assert [p[0]] + p[1..] == p;
    } else {
      assert (p + [sep] + t)[1..] == t;
    }
  }

  /** A piece without separators splits into itself. */
  lemma {:induction false} SplitWhole(p: string, sep: char)
    requires sep !in p
    ensures Split(p, sep) == [p]
  {
    if |p| > 0 {
      SplitWhole(p[1..], sep);
      assert [p[0]] + p[1..] == p;
    }
  }

  /** Splitting a join of separator-free pieces gives the pieces back. */
  lemma {:induction false} SplitJoin(parts: seq<string>, sep: char)
    requires |parts| >= 1
    requires forall i :: 0 <= i < |parts| ==> sep !in parts[i]
    ensures Split(Join(parts, sep), sep) == parts
  {
    if |parts| == 1 {
      SplitWhole(parts[0], sep);
    } else {
      SplitJoin(parts[1..], sep);
      SplitPiece(parts[0], sep, Join(parts[1..], sep));
      assert [parts[0]] + parts[1..] == parts;
    }
  }
}
