/**
 * The trailing-window percentile ranker: cut a date-ordered series to the
 * points on or after a cutoff, then give the share of the kept points whose
 * value compares to a reference in a given way, as a percentage.
 */
module Ranker {
  import opened Dates

  datatype Point = Point(date: Date, value: real)

  /** A date-indexed series of readings. */
  type Series = seq<Point>

  /** Dates strictly increase: the series is sorted and has no duplicate date. */
  predicate Chronological(s: Series) {
    forall i, j :: 0 <= i < j < |s| ==> DayKey(s[i].date) < DayKey(s[j].date)
  }

  /** Every point is dated on a real calendar day. */
  predicate DatesValid(s: Series) {
    forall i :: 0 <= i < |s| ==> ValidDate(s[i].date)
  }

  function Last(s: Series): Point
    requires |s| > 0
  {
    s[|s| - 1]
  }

  /** The points dated on or after `cutoff` (a boolean mask on the index). */
  function Window(s: Series, cutoff: Date): (w: Series)
    ensures |w| <= |s|
    ensures forall i :: 0 <= i < |w| ==> DayKey(w[i].date) >= DayKey(cutoff)
  {
    if s == [] then []
    else (if DayKey(s[0].date) >= DayKey(cutoff) then [s[0]] else []) + Window(s[1..], cutoff)
  }

  /** Index of the first point dated on or after `cutoff` (|s| if none is). */
  function FirstOnOrAfter(s: Series, cutoff: Date): (k: nat)
    ensures k <= |s|
    ensures forall i :: 0 <= i < k ==> DayKey(s[i].date) < DayKey(cutoff)
    ensures k < |s| ==> DayKey(s[k].date) >= DayKey(cutoff)
  {
    if s == [] then 0
    else if DayKey(s[0].date) >= DayKey(cutoff) then 0
    else 1 + FirstOnOrAfter(s[1..], cutoff)
  }

  lemma ChronologicalTail(s: Series)
    requires Chronological(s) && |s| > 0
    ensures Chronological(s[1..])
  {
    forall i, j | 0 <= i < j < |s| - 1
      ensures DayKey(s[1..][i].date) < DayKey(s[1..][j].date)
    {
      assert s[1..][i] == s[i + 1] && s[1..][j] == s[j + 1];
    }
  }

  /** A series dated wholly on or after the cutoff is kept whole. */
  lemma {:induction false} WindowKeepsAll(s: Series, cutoff: Date)
    requires forall i :: 0 <= i < |s| ==> DayKey(s[i].date) >= DayKey(cutoff)
    ensures Window(s, cutoff) == s
    decreases |s|
  {
    if s != [] {
      assert DayKey(s[0].date) >= DayKey(cutoff);
      assert forall i :: 0 <= i < |s| - 1 ==> s[1..][i] == s[i + 1];
      WindowKeepsAll(s[1..], cutoff);
      assert Window(s, cutoff) == [s[0]] + s[1..];
    }
  }

  /** On a sorted series the mask keeps a contiguous suffix. */
  lemma {:induction false} WindowIsSuffix(s: Series, cutoff: Date)
    requires Chronological(s)
    ensures Window(s, cutoff) == s[FirstOnOrAfter(s, cutoff)..]
    decreases |s|
  {
    if s == [] {
    } else if DayKey(s[0].date) >= DayKey(cutoff) {
      // every later point is later still, so the whole series is kept
      assert forall i :: 0 <= i < |s| ==> DayKey(s[0].date) <= DayKey(s[i].date);
      WindowKeepsAll(s, cutoff);
    } else {
      ChronologicalTail(s);
      WindowIsSuffix(s[1..], cutoff);
      var k := FirstOnOrAfter(s[1..], cutoff);
      assert Window(s, cutoff) == Window(s[1..], cutoff);
      assert s[1..][k..] == s[1 + k..];
    }
  }

  /**
   * The window of a sorted series, cut at or before its last date, is a
   * suffix holding at least the last point.
   */
  lemma WindowKeepsLast(s: Series, cutoff: Date)
    requires Chronological(s) && |s| > 0
    requires DayKey(cutoff) <= DayKey(Last(s).date)
    ensures |Window(s, cutoff)| > 0
    ensures Last(Window(s, cutoff)) == Last(s)
    ensures Window(s, cutoff) == s[|s| - |Window(s, cutoff)|..]
  {
    WindowIsSuffix(s, cutoff);
  }

  /**
   * The points of the last `years` years, counted back from the series'
   * own last date.
   */
  function TrailingWindow(s: Series, years: nat): (w: Series)
    requires Chronological(s) && |s| > 0
    ensures 0 < |w| <= |s|
    ensures w == s[|s| - |w|..]
    ensures Last(w) == Last(s)
  {
    var cutoff := YearsBefore(Last(s).date, years);
    WindowKeepsLast(s, cutoff);
    Window(s, cutoff)
  }

  /** The comparisons a point's value may be tested by against a reference. */
  datatype Relation = AtMost | AtLeast | Below | Above | Equal

  predicate Satisfies(v: real, rel: Relation, reference: real) {
    match rel
    case AtMost => v <= reference
    case AtLeast => v >= reference
    case Below => v < reference
    case Above => v > reference
    case Equal => v == reference
  }

  /** How many points of `w` satisfy the comparison. */
  function Count(w: Series, reference: real, rel: Relation): (c: nat)
    ensures c <= |w|
  {
    if w == [] then 0
    else Count(w[..|w| - 1], reference, rel) + (if Satisfies(Last(w).value, rel, reference) then 1 else 0)
  }

  /** `count / n * 100`: the mean of a boolean mask, as a percentage. */
  function Percent(count: nat, n: nat): real
    requires n > 0
  {
    count as real / n as real * 100.0
  }

  lemma PercentBounds(count: nat, n: nat)
    requires 0 < n && count <= n
    ensures 0.0 <= Percent(count, n) <= 100.0
    ensures count == n ==> Percent(count, n) == 100.0
    ensures count == 0 ==> Percent(count, n) == 0.0
    ensures count >= 1 ==> Percent(count, n) >= 100.0 / n as real
    ensures count <= n - 1 ==> Percent(count, n) <= 100.0 - 100.0 / n as real
  {
    var q := count as real / n as real;
    assert q * n as real == count as real;
    assert 0.0 <= q <= 1.0;
    assert count >= 1 ==> q >= 1.0 / n as real;
    if count <= n - 1 {
      assert q <= (n as real - 1.0) / n as real;
      assert (n as real - 1.0) / n as real * 100.0 == 100.0 - 100.0 / n as real;
    }
  }

  lemma PercentSum(a: nat, b: nat, n: nat)
    requires n > 0
    ensures Percent(a, n) + Percent(b, n) == Percent(a + b, n)
  {
  }

  lemma PercentMonotone(a: nat, b: nat, n: nat)
    requires n > 0 && a <= b
    ensures Percent(a, n) <= Percent(b, n)
  {
    assert a as real / n as real <= b as real / n as real;
  }

  /**
   * Percentile rank of `reference` in the window: the share of points whose
   * value compares to it as `rel` says, times 100.
   */
  function Rank(w: Series, reference: real, rel: Relation): (r: real)
    requires |w| > 0
    ensures 0.0 <= r <= 100.0
  {
    PercentBounds(Count(w, reference, rel), |w|);
    Percent(Count(w, reference, rel), |w|)
  }

  /** Every point is at most, or above, the reference; at least, or below; at least = above or equal. */
  lemma {:induction false} CountSplits(w: Series, reference: real)
    ensures Count(w, reference, AtMost) + Count(w, reference, Above) == |w|
    ensures Count(w, reference, AtLeast) + Count(w, reference, Below) == |w|
    ensures Count(w, reference, AtLeast) == Count(w, reference, Above) + Count(w, reference, Equal)
    decreases |w|
  {
    if w != [] {
      CountSplits(w[..|w| - 1], reference);
    }
  }

  /** Raising the reference admits more points at most it and fewer at least it. */
  lemma {:induction false} CountMonotone(w: Series, r1: real, r2: real)
    requires r1 <= r2
    ensures Count(w, r1, AtMost) <= Count(w, r2, AtMost)
    ensures Count(w, r1, AtLeast) >= Count(w, r2, AtLeast)
    ensures Count(w, r1, Below) <= Count(w, r2, Below)
    ensures Count(w, r1, Above) >= Count(w, r2, Above)
    decreases |w|
  {
    if w != [] {
      CountMonotone(w[..|w| - 1], r1, r2);
    }
  }

  /** If every point satisfies the comparison all are counted; if none does, none is. */
  lemma {:induction false} CountAllOrNone(w: Series, reference: real, rel: Relation)
    ensures (forall i :: 0 <= i < |w| ==> Satisfies(w[i].value, rel, reference)) ==> Count(w, reference, rel) == |w|
    ensures (forall i :: 0 <= i < |w| ==> !Satisfies(w[i].value, rel, reference)) ==> Count(w, reference, rel) == 0
    decreases |w|
  {
    if w != [] {
      var init := w[..|w| - 1];
      assert forall i :: 0 <= i < |init| ==> init[i] == w[i];
      CountAllOrNone(init, reference, rel);
    }
  }

  /**
   * Ranked against its own window, a series' latest value is never below
   * 100/|w| by the at-most comparison (it counts itself), and the share of
   * points strictly above it never reaches 100.
   */
  lemma RankOfLatest(w: Series)
    requires |w| > 0
    ensures 100.0 / |w| as real <= Rank(w, Last(w).value, AtMost) <= 100.0
    ensures 0.0 <= Rank(w, Last(w).value, Above) <= 100.0 - 100.0 / |w| as real
  {
    var v := Last(w).value;
    CountSplits(w, v);
    PercentBounds(Count(w, v, AtMost), |w|);
    PercentBounds(Count(w, v, Above), |w|);
  }

  /** The at-most rank rises with the reference; the at-least rank falls. */
  lemma RankMonotone(w: Series, r1: real, r2: real)
    requires |w| > 0 && r1 <= r2
    ensures Rank(w, r1, AtMost) <= Rank(w, r2, AtMost)
    ensures Rank(w, r1, AtLeast) >= Rank(w, r2, AtLeast)
    ensures Rank(w, r1, Below) <= Rank(w, r2, Below)
  {
    CountMonotone(w, r1, r2);
    PercentMonotone(Count(w, r1, AtMost), Count(w, r2, AtMost), |w|);
    PercentMonotone(Count(w, r2, AtLeast), Count(w, r1, AtLeast), |w|);
    PercentMonotone(Count(w, r1, Below), Count(w, r2, Below), |w|);
  }

  /**
   * A reference at or above every point ranks 100 by at-most and one below
   * every point ranks 0; a reference above every point ranks 0 by at-least
   * and one at or below every point ranks 100.
   */
  lemma RankExtremes(w: Series, reference: real)
    requires |w| > 0
    ensures (forall i :: 0 <= i < |w| ==> w[i].value <= reference) ==> Rank(w, reference, AtMost) == 100.0
    ensures (forall i :: 0 <= i < |w| ==> w[i].value > reference) ==> Rank(w, reference, AtMost) == 0.0
    ensures (forall i :: 0 <= i < |w| ==> w[i].value < reference) ==> Rank(w, reference, AtLeast) == 0.0
    ensures (forall i :: 0 <= i < |w| ==> w[i].value >= reference) ==> Rank(w, reference, AtLeast) == 100.0
  {
    CountAllOrNone(w, reference, AtMost);
    CountAllOrNone(w, reference, AtLeast);
    PercentBounds(Count(w, reference, AtMost), |w|);
    PercentBounds(Count(w, reference, AtLeast), |w|);
  }

  /** Inverting an at-most rank gives the above rank; inverting an at-least rank gives the below rank. */
  lemma RankComplements(w: Series, reference: real)
    requires |w| > 0
    ensures 100.0 - Rank(w, reference, AtMost) == Rank(w, reference, Above)
    ensures 100.0 - Rank(w, reference, AtLeast) == Rank(w, reference, Below)
    ensures (100.0 - Rank(w, reference, AtMost)) + (100.0 - Rank(w, reference, AtLeast))
         == 100.0 - Rank(w, reference, Equal)
  {
    CountSplits(w, reference);
    PercentSum(Count(w, reference, AtMost), Count(w, reference, Above), |w|);
    PercentSum(Count(w, reference, AtLeast), Count(w, reference, Below), |w|);
    PercentSum(Count(w, reference, Above), Count(w, reference, Equal), |w|);
    PercentBounds(|w|, |w|);
  }
}
